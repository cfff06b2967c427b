/** The bounded load runner: concurrent workers share a request index and a rate scheduler.
    A run is any interleaving of the workers' atomic sections under any nondecreasing clock. */
module LoadRunner {
  import opened Wrappers
  import opened Sequences
  import Sorting
  import opened Pacing

  datatype LoadCase = LoadCase(caseId: string, weight: nat)

  datatype LoadConfig = LoadConfig(
    cases: seq<LoadCase>, concurrency: nat, ratePerSecond: real, durationSeconds: real, maxRequests: Option<nat>)

  ghost predicate ValidConfig(c: LoadConfig) {
    && c.cases != [] && (forall k | k in c.cases :: 1 <= k.weight)
    && 1 <= c.concurrency && c.ratePerSecond >= 0.0 && c.durationSeconds > 0.0
    && (c.maxRequests.Some? ==> c.maxRequests.value >= 1)
  }

  function Repeat(c: LoadCase, n: nat): seq<LoadCase> {
    seq(n, _ => c)
  }

  /** Every case repeated by its weight. */
  function Weighted(cases: seq<LoadCase>): seq<LoadCase> {
    if cases == [] then [] else Repeat(cases[0], cases[0].weight) + Weighted(cases[1..])
  }

  datatype Sample = Sample(index: nat, case_: LoadCase, succeeded: bool)

  /** Where a worker stands between two of its atomic sections. */
  datatype Worker = Ready | Claimed(index: nat) | Sleeping(index: nat, until: real) | Sending(index: nat) | Stopped

  predicate Busy(w: Worker) {
    w.Claimed? || w.Sleeping? || w.Sending?
  }

  /** One atomic section of worker `w`, with the clock it reads. */
  datatype Event = Event(w: nat, now: real, succeeded: bool)

  /** The shared state of a run with the log of its claims and scheduled starts. */
  datatype Shared = Shared(
    index: nat, nextStart: real, samples: seq<Sample>, workers: seq<Worker>, now: real,
    claims: seq<LoadCase>, starts: seq<real>)

  // ---------- the protocol, section by section ----------

  function SetWorker(s: Shared, w: nat, next: Worker): Shared
    requires w < |s.workers|
  {
    s.(workers := s.workers[w := next])
  }

  /** A claimed request goes out before the deadline and is given up otherwise. */
  function SendOrStop(s: Shared, w: nat, i: nat, clock: real, deadline: real): Shared
    requires w < |s.workers|
  {
    SetWorker(s, w, if clock < deadline then Sending(i) else Stopped)
  }

  function Claiming(c: LoadConfig, weighted: seq<LoadCase>, deadline: real, s: Shared, w: nat, clock: real): Shared
    requires w < |s.workers| && weighted != []
  {
    if clock >= deadline || (c.maxRequests.Some? && s.index >= c.maxRequests.value) then SetWorker(s, w, Stopped)
    else SetWorker(s, w, Claimed(s.index)).(index := s.index + 1,
                                            claims := s.claims + [weighted[s.index % |weighted|]])
  }

  function Throttling(c: LoadConfig, deadline: real, s: Shared, w: nat, i: nat, clock: real): Shared
    requires w < |s.workers| && c.ratePerSecond >= 0.0
  {
    var scheduled := if clock >= s.nextStart then clock else s.nextStart;
    if c.ratePerSecond == 0.0 then SendOrStop(s, w, i, clock, deadline)
    else if scheduled >= deadline then SetWorker(s, w, Stopped)
    else SetWorker(s, w, Sleeping(i, scheduled)).(nextStart := scheduled + 1.0 / c.ratePerSecond,
                                                  starts := s.starts + [scheduled])
  }

  /** One event; what cannot happen (a clock that goes back, a worker woken before its start) changes nothing. */
  function Next(c: LoadConfig, weighted: seq<LoadCase>, deadline: real, s: Shared, e: Event): Shared
    requires weighted != [] && c.ratePerSecond >= 0.0
  {
    if e.w >= |s.workers| || e.now < s.now then s
    else
      var t := s.(now := e.now);
      match s.workers[e.w]
      case Ready => Claiming(c, weighted, deadline, t, e.w, e.now)
      case Claimed(i) => Throttling(c, deadline, t, e.w, i, e.now)
      case Sleeping(i, until) => if e.now < until then t else SendOrStop(t, e.w, i, e.now, deadline)
      case Sending(i) =>
        SetWorker(t, e.w, Ready).(samples := t.samples + [Sample(i, weighted[i % |weighted|], e.succeeded)])
      case Stopped => t
  }

  function Initial(c: LoadConfig, next: real): Shared {
    Shared(0, next, [], seq(c.concurrency, _ => Ready), next, [], [])
  }

  /** The state after a whole schedule. */
  function After(c: LoadConfig, began: real, next: real, schedule: seq<Event>): Shared
    requires Weighted(c.cases) != [] && c.ratePerSecond >= 0.0
  {
    if schedule == [] then Initial(c, next)
    else Next(c, Weighted(c.cases), began + c.durationSeconds,
              After(c, began, next, schedule[..|schedule| - 1]), schedule[|schedule| - 1])
  }

  lemma {:induction false} AfterStep(c: LoadConfig, began: real, next: real, schedule: seq<Event>, k: nat)
    requires Weighted(c.cases) != [] && c.ratePerSecond >= 0.0 && k < |schedule|
    ensures After(c, began, next, schedule[..k + 1])
         == Next(c, Weighted(c.cases), began + c.durationSeconds, After(c, began, next, schedule[..k]), schedule[k])
  {
    assert schedule[..k + 1][..k] == schedule[..k];
  }

  /** What has become of a claimed index. */
  datatype Fate = Held(w: nat) | Sampled | Dropped(w: nat)

  /** Every claimed index is held by one worker, sampled, or dropped by one worker that has stopped. */
  ghost predicate Ledger(workers: seq<Worker>, fates: seq<Fate>) {
    && (forall i | 0 <= i < |fates| && fates[i].Held? ::
          fates[i].w < |workers| && Busy(workers[fates[i].w]) && workers[fates[i].w].index == i)
    && (forall i | 0 <= i < |fates| && fates[i].Dropped? :: fates[i].w < |workers| && workers[fates[i].w].Stopped?)
    && (forall w | 0 <= w < |workers| && Busy(workers[w]) ::
          workers[w].index < |fates| && fates[workers[w].index] == Held(w))
    && (forall i, j | 0 <= i < j < |fates| :: fates[i].Dropped? ==> fates[i] != fates[j])
  }

  /** Samples stand for the sampled indices, once each, and carry the case that was claimed. */
  ghost predicate Sampling(samples: seq<Sample>, fates: seq<Fate>, weighted: seq<LoadCase>)
    requires weighted != []
  {
    && (forall k | 0 <= k < |samples| :: samples[k].index < |fates| && fates[samples[k].index].Sampled?
                                          && samples[k].case_ == weighted[samples[k].index % |weighted|])
    && (forall k, m | 0 <= k < m < |samples| :: samples[k].index != samples[m].index)
    && (forall i | 0 <= i < |fates| && fates[i].Sampled? :: exists k | 0 <= k < |samples| :: samples[k].index == i)
  }

  /** Claim `i` was given the case `weighted[i mod n]`, and the iterator stands at the next one. */
  ghost predicate Turns(claims: seq<LoadCase>, cursor: nat, weighted: seq<LoadCase>)
    requires weighted != []
  {
    && cursor == |claims| % |weighted|
    && forall i | 0 <= i < |claims| :: claims[i] == weighted[i % |weighted|]
  }

  lemma TurnsClaim(claims: seq<LoadCase>, cursor: nat, weighted: seq<LoadCase>)
    requires weighted != [] && Turns(claims, cursor, weighted)
    ensures cursor < |weighted|
    ensures Turns(claims + [weighted[cursor]], if cursor + 1 == |weighted| then 0 else cursor + 1, weighted)
  {
    NextTurn(|claims|, |weighted|);
  }

  lemma LedgerClaim(workers: seq<Worker>, fates: seq<Fate>, w: nat)
    requires Ledger(workers, fates) && w < |workers| && workers[w].Ready?
    ensures Ledger(workers[w := Claimed(|fates|)], fates + [Held(w)])
  {
  }

  lemma LedgerStop(workers: seq<Worker>, fates: seq<Fate>, w: nat)
    requires Ledger(workers, fates) && w < |workers| && workers[w].Ready?
    ensures Ledger(workers[w := Stopped], fates)
  {
  }

  lemma LedgerDrop(workers: seq<Worker>, fates: seq<Fate>, w: nat)
    requires Ledger(workers, fates) && w < |workers| && Busy(workers[w])
    ensures Ledger(workers[w := Stopped], fates[workers[w].index := Dropped(w)])
  {
  }

  lemma LedgerMove(workers: seq<Worker>, fates: seq<Fate>, w: nat, next: Worker)
    requires Ledger(workers, fates) && w < |workers| && Busy(workers[w]) && Busy(next)
    requires next.index == workers[w].index
    ensures Ledger(workers[w := next], fates)
  {
  }

  lemma LedgerFinish(workers: seq<Worker>, fates: seq<Fate>, w: nat)
    requires Ledger(workers, fates) && w < |workers| && Busy(workers[w])
    ensures Ledger(workers[w := Ready], fates[workers[w].index := Sampled])
  {
  }

  lemma SamplingClaim(samples: seq<Sample>, fates: seq<Fate>, weighted: seq<LoadCase>, w: nat)
    requires weighted != [] && Sampling(samples, fates, weighted)
    ensures Sampling(samples, fates + [Held(w)], weighted)
  {
  }

  lemma SamplingDrop(samples: seq<Sample>, fates: seq<Fate>, weighted: seq<LoadCase>, i: nat, w: nat)
    requires weighted != [] && Sampling(samples, fates, weighted) && i < |fates| && fates[i].Held?
    ensures Sampling(samples, fates[i := Dropped(w)], weighted)
  {
  }

  lemma SamplingFinish(samples: seq<Sample>, fates: seq<Fate>, weighted: seq<LoadCase>, sample: Sample)
    requires weighted != [] && Sampling(samples, fates, weighted)
    requires sample.index < |fates| && fates[sample.index].Held?
    requires sample.case_ == weighted[sample.index % |weighted|]
    ensures Sampling(samples + [sample], fates[sample.index := Sampled], weighted)
  {
    var after, grown := fates[sample.index := Sampled], samples + [sample];
    forall i | 0 <= i < |after| && after[i].Sampled? ensures exists k | 0 <= k < |grown| :: grown[k].index == i {
      if i == sample.index {
        assert grown[|samples|].index == i;
      } else {
        var k :| 0 <= k < |samples| && samples[k].index == i;
        assert grown[k].index == i;
      }
    }
  }

  class LoadRun {
    const config: LoadConfig
    const weighted: seq<LoadCase>
    const deadline: real
    var index: nat
    var cursor: nat
    var nextStart: real
    var samples: seq<Sample>
    var workers: seq<Worker>
    var now: real
    var claims: seq<LoadCase>
    var starts: seq<real>
    ghost var fates: seq<Fate>

    constructor (config: LoadConfig, began: real, next: real)
      requires ValidConfig(config) && began <= next
      ensures Valid() && this.config == config && deadline == began + config.durationSeconds
      ensures View() == Initial(config, next)
    {
      WeightedNonempty(config.cases);
      this.config, weighted := config, Weighted(config.cases);
      deadline := began + config.durationSeconds;
      index, cursor, nextStart, samples, now, claims, starts, fates := 0, 0, next, [], next, [], [], [];
      workers := seq(config.concurrency, _ => Ready);
    }

    ghost function View(): Shared reads this {
      Shared(index, nextStart, samples, workers, now, claims, starts)
    }

    /** The shared state agrees with its history. */
    ghost predicate Valid() reads this {
      && ValidConfig(config)
      && weighted == Weighted(config.cases) && weighted != []
      && |workers| == config.concurrency
      && ClaimsValid() && ScheduleValid()
      && |fates| == index && Ledger(workers, fates) && Sampling(samples, fates, weighted)
    }

    /** Claims are exactly `0..index-1`, bounded, and the case iterator has turned once per claim. */
    ghost predicate ClaimsValid()
      requires weighted != []
      reads this
    {
      && |claims| == index && Turns(claims, cursor, weighted)
      && (config.maxRequests.Some? ==> index <= config.maxRequests.value)
    }

    /** Scheduled starts keep the rate and the deadline. */
    ghost predicate ScheduleValid() reads this {
      config.ratePerSecond > 0.0 ==>
        && Spaced(starts, 1.0 / config.ratePerSecond)
        && (forall k | 0 <= k < |starts| :: starts[k] < deadline)
        && (starts != [] ==> nextStart >= starts[|starts| - 1] + 1.0 / config.ratePerSecond)
    }

    /** `current = index; index += 1; next(case_cycle)` */
    method Claim(w: nat)
      requires Valid() && w < |workers| && workers[w].Ready?
      requires config.maxRequests.Some? ==> index < config.maxRequests.value
      modifies this
      ensures Valid()
      ensures View() == SetWorker(old(View()), w, Claimed(old(index))).(
                          index := old(index) + 1, claims := old(claims) + [weighted[old(index) % |weighted|]])
    {
      LedgerClaim(workers, fates, w);
      SamplingClaim(samples, fates, weighted, w);
      TurnsClaim(claims, cursor, weighted);
      workers, fates := workers[w := Claimed(index)], fates + [Held(w)];
      claims, cursor := claims + [weighted[cursor]], if cursor + 1 == |weighted| then 0 else cursor + 1;
      index := index + 1;
    }

    /** `next_request`, under the index lock. */
    method NextRequest(w: nat, clock: real)
      requires Valid() && w < |workers| && workers[w].Ready?
      modifies this
      ensures Valid() && View() == Claiming(config, weighted, deadline, old(View()), w, clock)
    {
      if clock >= deadline || (config.maxRequests.Some? && index >= config.maxRequests.value) {
        LedgerStop(workers, fates, w);
        workers := workers[w := Stopped];
      } else {
        Claim(w);
      }
    }

    /** The end of a worker whose claimed request is not sent. */
    method Drop(w: nat)
      requires Valid() && w < |workers| && (workers[w].Claimed? || workers[w].Sleeping?)
      modifies this`workers, this`fates
      ensures Valid() && View() == SetWorker(old(View()), w, Stopped)
    {
      LedgerDrop(workers, fates, w);
      SamplingDrop(samples, fates, weighted, workers[w].index, w);
      fates := fates[workers[w].index := Dropped(w)];
      workers := workers[w := Stopped];
    }

    method Move(w: nat, next: Worker)
      requires Valid() && w < |workers| && (workers[w].Claimed? || workers[w].Sleeping?)
      requires next.Sleeping? || next.Sending?
      requires next.index == workers[w].index
      modifies this`workers
      ensures Valid() && View() == SetWorker(old(View()), w, next)
    {
      LedgerMove(workers, fates, w, next);
      workers := workers[w := next];
    }

    /** `self._clock() < deadline` decides whether a claimed request is sent. */
    method Send(w: nat, clock: real)
      requires Valid() && w < |workers| && (workers[w].Claimed? || workers[w].Sleeping?)
      modifies this`workers, this`fates
      ensures Valid() && View() == SendOrStop(old(View()), w, old(workers[w].index), clock, deadline)
    {
      if clock < deadline { Move(w, Sending(workers[w].index)); } else { Drop(w); }
    }

    /** `throttle` up to the sleep, under the rate lock. */
    method Throttle(w: nat, clock: real)
      requires Valid() && w < |workers| && workers[w].Claimed?
      modifies this
      ensures Valid() && View() == Throttling(config, deadline, old(View()), w, old(workers[w].index), clock)
    {
      if config.ratePerSecond == 0.0 {
        Send(w, clock);
        return;
      }
      var scheduled := if clock >= nextStart then clock else nextStart;
      if scheduled >= deadline {
        Drop(w);
        return;
      }
      Schedule(scheduled);
      Move(w, Sleeping(workers[w].index, scheduled));
    }

    /** `next_start = scheduled_start + 1 / rate` */
    method Schedule(scheduled: real)
      requires Valid() && config.ratePerSecond > 0.0 && nextStart <= scheduled < deadline
      modifies this`nextStart, this`starts
      ensures Valid() && nextStart == scheduled + 1.0 / config.ratePerSecond && starts == old(starts) + [scheduled]
    {
      Gap(config.ratePerSecond);
      nextStart := scheduled + 1.0 / config.ratePerSecond;
      starts := starts + [scheduled];
    }

    /** The response arrives: `samples.append(...)`, and the worker asks for its next request. */
    method Respond(w: nat, succeeded: bool)
      requires Valid() && w < |workers| && workers[w].Sending?
      modifies this
      ensures Valid()
      ensures var i := old(workers[w].index);
              View() == SetWorker(old(View()), w, Ready).(
                          samples := old(samples) + [Sample(i, weighted[i % |weighted|], succeeded)])
    {
      var sample := Sample(workers[w].index, claims[workers[w].index], succeeded);
      LedgerFinish(workers, fates, w);
      SamplingFinish(samples, fates, weighted, sample);
      fates := fates[workers[w].index := Sampled];
      samples := samples + [sample];
      workers := workers[w := Ready];
    }

    /** The next atomic section of one worker. */
    method Step(event: Event)
      requires Valid()
      modifies this
      ensures Valid() && View() == Next(config, weighted, deadline, old(View()), event)
    {
      if event.w >= |workers| || event.now < now { return; }
      now := event.now;
      match workers[event.w] {
        case Ready => NextRequest(event.w, event.now);
        case Claimed(_) => Throttle(event.w, event.now);
        case Sleeping(_, until) => if event.now >= until { Send(event.w, event.now); }
        case Sending(_) => Respond(event.w, event.succeeded);
        case Stopped =>
      }
    }
  }

  lemma {:induction false} WeightedNonempty(cases: seq<LoadCase>)
    requires cases != [] && forall k | k in cases :: 1 <= k.weight
    ensures Weighted(cases) != []
  {
    assert cases[0] in cases;
  }

  // ---------- whole runs ----------

  /** At most one claimed index per worker is missing from the samples. */
  lemma {:induction false} FewUnsampled(workers: seq<Worker>, fates: seq<Fate>, missing: set<nat>)
    requires Ledger(workers, fates)
    requires forall i | i in missing :: i < |fates| && !fates[i].Sampled?
    ensures |missing| <= |workers|
  {
    var holders := set i | i in missing :: fates[i].w;
    SameSize(missing, holders, fates);
    assert holders <= Below(|workers|);
    SubsetSize(holders, Below(|workers|));
  }

  lemma {:induction false} SameSize(missing: set<nat>, holders: set<nat>, fates: seq<Fate>)
    requires forall i | i in missing :: i < |fates| && !fates[i].Sampled?
    requires forall i, j | i in missing && j in missing && i != j :: fates[i].w != fates[j].w
    requires holders == set i | i in missing :: fates[i].w
    ensures |missing| == |holders|
  {
    if missing != {} {
      var i :| i in missing;
      var rest := missing - {i};
      assert holders - {fates[i].w} == set j | j in rest :: fates[j].w;
      SameSize(rest, holders - {fates[i].w}, fates);
    }
  }

  ghost function Below(n: nat): (r: set<nat>)
    ensures |r| == n
    ensures forall i: nat :: i in r <==> i < n
  {
    if n == 0 then {} else Below(n - 1) + {n - 1}
  }

  lemma {:induction false} SubsetSize(a: set<nat>, b: set<nat>)
    requires a <= b
    ensures |a| <= |b|
  {
    if a != {} {
      var x :| x in a;
      SubsetSize(a - {x}, b - {x});
    }
  }

  datatype LoadReport = LoadReport(requestCount: nat, successCount: nat, failureCount: nat, samples: seq<Sample>)

  predicate ByIndex(a: Sample, b: Sample) {
    a.index < b.index
  }

  function Successes(samples: seq<Sample>): nat {
    if samples == [] then 0 else (if samples[0].succeeded then 1 else 0) + Successes(samples[1..])
  }

  /** The report; `None` is the error raised for a run without samples. */
  function Report(samples: seq<Sample>): Option<LoadReport> {
    if samples == [] then None
    else
      var ordered := Sorting.Sort(ByIndex, samples);
      SuccessesBounded(ordered);
      Some(LoadReport(|ordered|, Successes(ordered), |ordered| - Successes(ordered), ordered))
  }

  lemma SuccessesBounded(samples: seq<Sample>)
    ensures Successes(samples) <= |samples|
  {
  }

  lemma {:induction false} SuccessesCounted(samples: seq<Sample>)
    ensures Successes(samples) == Count((s: Sample) => s.succeeded, samples)
  {
    if samples != [] {
      SuccessesCounted(samples[1..]);
    }
  }

  /** The report counts the samples that succeeded and those that did not. */
  ghost predicate CountsOutcomes(r: LoadReport, samples: seq<Sample>) {
    && r.requestCount == |samples|
    && r.successCount == |set i | 0 <= i < |samples| && samples[i].succeeded|
    && r.failureCount == |set i | 0 <= i < |samples| && !samples[i].succeeded|
  }

  lemma {:induction false} OutcomesCounted(samples: seq<Sample>)
    requires samples != []
    ensures CountsOutcomes(Report(samples).value, samples)
  {
    var ordered := Sorting.Sort(ByIndex, samples);
    var good, bad := (s: Sample) => s.succeeded, (s: Sample) => !s.succeeded;
    SuccessesCounted(ordered);
    CountPermutation(good, ordered, samples);
    CountSplit(good, bad, samples);
    CountIndices(good, samples, set i | 0 <= i < |samples| && samples[i].succeeded);
    CountIndices(bad, samples, set i | 0 <= i < |samples| && !samples[i].succeeded);
  }

  /** The report lists the same samples, strictly by index, and counts their outcomes. */
  lemma {:induction false} ReportOrdered(samples: seq<Sample>, fates: seq<Fate>, weighted: seq<LoadCase>)
    requires weighted != [] && samples != [] && Sampling(samples, fates, weighted)
    ensures var r := Report(samples).value;
            && multiset(r.samples) == multiset(samples) && Sorting.Pairwise(ByIndex, r.samples)
            && CountsOutcomes(r, samples)
  {
    var different := (a: Sample, b: Sample) => a.index != b.index;
    OutcomesCounted(samples);
    Sorting.SortStable(ByIndex, different, samples);
  }

  /** No start is scheduled before the run began. */
  lemma {:induction false} StartsAfter(c: LoadConfig, began: real, next: real, schedule: seq<Event>)
    requires Weighted(c.cases) != [] && c.ratePerSecond >= 0.0
    ensures var s := After(c, began, next, schedule);
            s.nextStart >= next && forall k | 0 <= k < |s.starts| :: s.starts[k] >= next
  {
    if schedule != [] {
      StartsAfter(c, began, next, schedule[..|schedule| - 1]);
      if c.ratePerSecond > 0.0 { Gap(c.ratePerSecond); }
    }
  }

  /** `LoadRunner.run` under any schedule; `began` and `next` are the first two clock readings. Claims are consecutive,
      bounded and dealt out in weighted turns; starts keep rate and deadline, for every pair and in number; samples are
      of claimed requests, once each, and at most one request per worker is left without one. */
  method Run(config: LoadConfig, began: real, next: real, schedule: seq<Event>)
    returns (run: Shared, report: Option<LoadReport>)
    requires ValidConfig(config) && began <= next
    ensures Weighted(config.cases) != [] && run == After(config, began, next, schedule)
    ensures |run.claims| == run.index
    ensures forall i | 0 <= i < run.index :: run.claims[i] == Weighted(config.cases)[i % |Weighted(config.cases)|]
    ensures config.maxRequests.Some? ==> run.index <= config.maxRequests.value
    ensures config.ratePerSecond > 0.0 ==>
              KeepsRate(run.starts, config.ratePerSecond, began, next, config.durationSeconds)
    ensures forall s | s in run.samples :: s.index < run.index && s.case_ == run.claims[s.index]
    ensures forall k, m | 0 <= k < m < |run.samples| :: run.samples[k].index != run.samples[m].index
    ensures run.index <= |run.samples| + config.concurrency
    ensures report == Report(run.samples) && (report.Some? <==> run.samples != [])
    ensures report.Some? ==> Sorting.Pairwise(ByIndex, report.value.samples)
                             && multiset(report.value.samples) == multiset(run.samples)
                             && CountsOutcomes(report.value, run.samples)
  {
    ghost var fates;
    run, fates := Execute(config, began, next, schedule);
    report := Report(run.samples);
    StartsAfter(config, began, next, schedule);
    if config.ratePerSecond > 0.0 {
      RateKept(run.starts, config.ratePerSecond, began, next, config.durationSeconds);
    }
    AlmostAllSampled(run.workers, fates, run.samples, Weighted(config.cases));
    if run.samples != [] {
      ReportOrdered(run.samples, fates, Weighted(config.cases));
    }
  }

  /** The workers, driven by the schedule; `fates` witnesses what became of every claimed index. */
  method Execute(config: LoadConfig, began: real, next: real, schedule: seq<Event>)
    returns (run: Shared, ghost fates: seq<Fate>)
    requires ValidConfig(config) && began <= next
    ensures Weighted(config.cases) != [] && run == After(config, began, next, schedule)
    ensures |run.workers| == config.concurrency && |run.claims| == |fates| == run.index
    ensures config.maxRequests.Some? ==> run.index <= config.maxRequests.value
    ensures Turns(run.claims, run.index % |Weighted(config.cases)|, Weighted(config.cases))
    ensures Ledger(run.workers, fates) && Sampling(run.samples, fates, Weighted(config.cases))
    ensures config.ratePerSecond > 0.0 ==> Spaced(run.starts, 1.0 / config.ratePerSecond)
    ensures config.ratePerSecond > 0.0 ==> forall k | 0 <= k < |run.starts| :: run.starts[k] < began + config.durationSeconds
  {
    var r := new LoadRun(config, began, next);
    Drive(r, began, next, schedule);
    run := Shared(r.index, r.nextStart, r.samples, r.workers, r.now, r.claims, r.starts);
    fates := r.fates;
  }

  /** One atomic section after the other. */
  method Drive(r: LoadRun, began: real, next: real, schedule: seq<Event>)
    requires r.Valid() && r.deadline == began + r.config.durationSeconds && r.View() == Initial(r.config, next)
    modifies r
    ensures r.Valid() && r.View() == After(r.config, began, next, schedule)
  {
    for e := 0 to |schedule|
      invariant r.Valid() && r.View() == After(r.config, began, next, schedule[..e])
    {
      DriveOne(r, began, next, schedule, e);
    }
    assert schedule[..|schedule|] == schedule;
  }

  method DriveOne(r: LoadRun, began: real, next: real, schedule: seq<Event>, e: nat)
    requires r.Valid() && r.deadline == began + r.config.durationSeconds && e < |schedule|
    requires r.View() == After(r.config, began, next, schedule[..e])
    modifies r
    ensures r.Valid() && r.View() == After(r.config, began, next, schedule[..e + 1])
  {
    AfterStep(r.config, began, next, schedule, e);
    r.Step(schedule[e]);
  }

  lemma {:induction false} SplitFates(fates: seq<Fate>) returns (missing: set<nat>, sampled: set<nat>)
    ensures |missing| + |sampled| == |fates|
    ensures forall i | i in missing :: i < |fates| && !fates[i].Sampled?
    ensures forall i | i in sampled :: i < |fates| && fates[i].Sampled?
  {
    if fates == [] {
      missing, sampled := {}, {};
    } else {
      var last := |fates| - 1;
      missing, sampled := SplitFates(fates[..last]);
      if fates[last].Sampled? { sampled := sampled + {last}; } else { missing := missing + {last}; }
    }
  }

  lemma {:induction false} AlmostAllSampled(
    workers: seq<Worker>, fates: seq<Fate>, samples: seq<Sample>, weighted: seq<LoadCase>)
    requires weighted != [] && Ledger(workers, fates) && Sampling(samples, fates, weighted)
    ensures |fates| <= |samples| + |workers|
  {
    var missing, sampled := SplitFates(fates);
    FewUnsampled(workers, fates, missing);
    SampledBySamples(fates, samples, weighted, sampled);
  }

  lemma {:induction false} SampledBySamples(
    fates: seq<Fate>, samples: seq<Sample>, weighted: seq<LoadCase>, sampled: set<nat>)
    requires weighted != [] && Sampling(samples, fates, weighted)
    requires forall i | i in sampled :: i < |fates| && fates[i].Sampled?
    ensures |sampled| <= |samples|
  {
    SampledIndices(samples, |samples|);
    var indices := set k | 0 <= k < |samples| :: samples[k].index;
    forall i | i in sampled ensures i in indices {
      var k :| 0 <= k < |samples| && samples[k].index == i;
    }
    SubsetSize(sampled, indices);
  }

  lemma {:induction false} SampledIndices(samples: seq<Sample>, n: nat)
    requires n <= |samples|
    ensures |set k | 0 <= k < n :: samples[k].index| <= n
  {
    if n > 0 {
      SampledIndices(samples, n - 1);
      assert (set k | 0 <= k < n :: samples[k].index)
          == (set k | 0 <= k < n - 1 :: samples[k].index) + {samples[n - 1].index};
    }
  }
}
