/**
 * test.js, running the tests: the module-level collections the event
 * handler fills, one run inside a fresh YUI instance (executeTestsWithinY),
 * and the queue of app test modules run one after the other
 * (execTestQueueInY).
 */
module TestRun {
  import opened Common
  import opened YuiTestEngine
  import opened TestReport
  import opened TestSelection

  /** The contents of the four module-level collections. */
  datatype Collected = Collected(failures: seq<FailureRecord>, results: seq<Suite>,
                                 junitXml: seq<string>, coverage: map<string, string>)

  /** collectedFailures, collectedResults, collectedJUnitXML, collectedCoverage. */
  class Collector {
    var failures: seq<FailureRecord>
    var results: seq<Suite>
    var junitXml: seq<string>
    var coverage: map<string, string>

    function Snapshot(): (r: Collected)
      reads this
    {
      Collected(failures, results, junitXml, coverage)
    }

    constructor ()
      ensures Snapshot() == Collected([], [], [], map[])
    {
      failures := [];
      results := [];
      junitXml := [];
      coverage := map[];
    }

    /** collectFailure(suiteName, event). */
    method CollectFailure(suiteName: string, caseName: string, testName: string, message: string, stack: string)
      modifies this
      ensures Snapshot() == old(Snapshot()).(failures := old(failures) + [FailureRecord(suiteName, caseName, testName, message, stack)])
    {
      failures := failures + [FailureRecord(suiteName, caseName, testName, message, stack)];
    }

    /** collectRunResults(results): keep the results and the run's JUnit
        document and, with coverage on, let every file of the run's coverage
        overwrite the collected coverage of that file. */
    method CollectRunResults(runResults: Suite, runJUnitXml: string, json: map<string, string>, coverageOn: bool)
      modifies this
      ensures Snapshot() == Collected(old(failures), old(results) + [runResults], old(junitXml) + [runJUnitXml],
                                      if coverageOn then old(coverage) + json else old(coverage))
    {
      results := results + [runResults];
      junitXml := junitXml + [runJUnitXml];
      if coverageOn {
        ghost var before := coverage;
        ghost var kept := Snapshot();
        var pending := json.Keys;
        while pending != {}
          invariant pending <= json.Keys
          invariant failures == kept.failures && results == kept.results && junitXml == kept.junitXml
          invariant forall f :: f in coverage <==> f in before || (f in json && f !in pending)
          invariant forall f :: f in coverage ==>
                      coverage[f] == if f in json && f !in pending then json[f] else before[f]
          decreases |pending|
        {
          var file :| file in pending;
          coverage := coverage[file := json[file]];
          pending := pending - {file};
        }
        MergeByKeys(before, json, coverage);
      }
    }
  }

  lemma MergeByKeys(before: map<string, string>, json: map<string, string>, after: map<string, string>)
    requires forall f :: f in after <==> f in before || f in json
    requires forall f :: f in after ==> after[f] == if f in json then json[f] else before[f]
    ensures after == before + json
  {
  }

  // ---------------------------------------------------------------------------
  // What one run's events do

  /** The suite name the handler holds after `events`, starting from `name`. */
  function NameAfter(name: string, events: seq<Event>): (r: string)
    decreases |events|
  {
    if events == [] then name
    else
      var e := events[|events| - 1];
      if e.SuiteBegin? then e.testSuiteName else NameAfter(name, events[..|events| - 1])
  }

  /** The failures the handler collects over `events`, each under the suite
      name it holds at that point. */
  function FailuresOf(name: string, events: seq<Event>): (r: seq<FailureRecord>)
    decreases |events|
  {
    if events == [] then []
    else
      var front := events[..|events| - 1];
      var e := events[|events| - 1];
      FailuresOf(name, front)
      + if e.Fail? then [FailureRecord(NameAfter(name, front), e.caseName, e.testName, e.message, e.stack)] else []
  }

  /** The position of the first COMPLETE, or the number of events if none. */
  function FirstComplete(events: seq<Event>): (k: nat)
    ensures k <= |events|
    ensures forall j :: 0 <= j < k ==> !events[j].Complete?
    ensures k < |events| ==> events[k].Complete?
    decreases |events|
  {
    if events == [] then 0
    else if events[0].Complete? then 0
    else 1 + FirstComplete(events[1..])
  }

  /** The collections after the handler of one run saw `events`: the
      failures up to the first COMPLETE and, at COMPLETE, the run's results.
      Nothing is delivered after COMPLETE: the handler has unsubscribed. */
  function Collect(c: Collected, events: seq<Event>, coverageOn: bool): (r: Collected) {
    var k := FirstComplete(events);
    var failures := c.failures + FailuresOf("", events[..k]);
    if k == |events| then c.(failures := failures)
    else
      var e := events[k];
      Collected(failures, c.results + [e.results], c.junitXml + [e.junitXml],
                if coverageOn then c.coverage + e.coverage else c.coverage)
  }

  /** What the handler does when COMPLETE arrives. */
  datatype RunOutcome = Running | Continued | Finished(report: Report)

  function Subscriptions(h: Handler): (r: seq<Subscription>) {
    [Subscription(BeginEvent, h), Subscription(TestSuiteBeginEvent, h),
     Subscription(TestFailEvent, h), Subscription(CompleteEvent, h)]
  }

  /** The report processResults makes from the collections. */
  function ReportFrom(c: Collected, coverageOn: bool, coverageReportFails: bool): (r: Report) {
    ReportOf(c.failures, c.results, c.junitXml, c.coverage, coverageOn, coverageReportFails)
  }

  /** The arguments YUI's `use` receives: the modules, then testRunner. */
  datatype UseArg = Module(name: string) | RunnerCallback

  function UseArgs(tests: seq<string>): (r: seq<UseArg>)
    ensures |r| == |tests| + 1 && r[|tests|] == RunnerCallback
    ensures forall i :: 0 <= i < |tests| ==> r[i] == Module(tests[i])
  {
    seq(|tests|, i requires 0 <= i < |tests| => Module(tests[i])) + [RunnerCallback]
  }

  lemma EventStep(events: seq<Event>, i: nat)
    requires i < |events|
    ensures NameAfter("", events[..i + 1]) == if events[i].SuiteBegin? then events[i].testSuiteName else NameAfter("", events[..i])
    ensures FailuresOf("", events[..i + 1]) == FailuresOf("", events[..i])
              + if events[i].Fail? then [FailureRecord(NameAfter("", events[..i]), events[i].caseName, events[i].testName,
                                                       events[i].message, events[i].stack)] else []
  {
    assert events[..i + 1][..i] == events[..i];
  }

  /** handleEvent: BEGIN runs the preProcessor (its directory wiping is not
      modelled), TEST_SUITE_BEGIN records the suite name, TEST_FAIL collects
      a failure under it, and COMPLETE unsubscribes the four subscriptions,
      collects the run's results and then calls `cb` when there is one and
      processResults otherwise. */
  method HandleEvent(engine: TestRunner, collector: Collector, session: nat, suiteName: string, e: Event,
                     hasNext: bool, coverageOn: bool, coverageReportFails: bool)
    returns (newSuiteName: string, outcome: RunOutcome)
    modifies engine, collector
    ensures newSuiteName == if e.SuiteBegin? then e.testSuiteName else suiteName
    ensures engine.suites == old(engine.suites)
    ensures !e.Complete? ==> engine.subscribers == old(engine.subscribers) && outcome == Running
    ensures e.Fail? ==> collector.Snapshot() == old(collector.Snapshot()).(failures := old(collector.failures)
                          + [FailureRecord(suiteName, e.caseName, e.testName, e.message, e.stack)])
    ensures e.Begin? || e.SuiteBegin? ==> collector.Snapshot() == old(collector.Snapshot())
    ensures e.Complete? ==>
      && engine.subscribers == DetachAll(old(engine.subscribers), Subscriptions(HandleEventOf(session)))
      && collector.Snapshot() == Collected(old(collector.failures), old(collector.results) + [e.results],
                                           old(collector.junitXml) + [e.junitXml],
                                           if coverageOn then old(collector.coverage) + e.coverage else old(collector.coverage))
      && outcome == if hasNext then Continued else Finished(ReportFrom(collector.Snapshot(), coverageOn, coverageReportFails))
  {
    newSuiteName := suiteName;
    outcome := Running;
    match e {
      case Begin =>
      case SuiteBegin(name) =>
        newSuiteName := name;
      case Fail(caseName, testName, message, stack) =>
        collector.CollectFailure(suiteName, caseName, testName, message, stack);
      case Complete(results, junitXml, coverage) =>
        var h := HandleEventOf(session);
        engine.Unsubscribe(BeginEvent, h);
        engine.Unsubscribe(TestSuiteBeginEvent, h);
        engine.Unsubscribe(TestFailEvent, h);
        engine.Unsubscribe(CompleteEvent, h);
        DetachFour(old(engine.subscribers), Subscription(BeginEvent, h), Subscription(TestSuiteBeginEvent, h),
                   Subscription(TestFailEvent, h), Subscription(CompleteEvent, h));
        collector.CollectRunResults(results, junitXml, coverage, coverageOn);
        if hasNext {
          outcome := Continued;
        } else {
          var report := ProcessResults(collector.failures, collector.results, collector.junitXml,
                                       collector.coverage, coverageOn, coverageReportFails);
          outcome := Finished(report);
        }
    }
  }

  /** A handler none of whose subscriptions is in `subs`. */
  predicate Fresh(subs: seq<Subscription>, h: Handler) {
    forall s :: s in subs ==> s.handler != h
  }

  /** While subscribed, the handler receives every event type; a fresh
      handler receives none. */
  lemma SubscribedTypes(base: seq<Subscription>, h: Handler, t: EventType)
    requires Fresh(base, h)
    ensures Subscription(t, h) in base + Subscriptions(h)
    ensures Subscription(t, h) !in base
  {
    var subs := Subscriptions(h);
    assert subs[0].event == BeginEvent && subs[1].event == TestSuiteBeginEvent;
    assert subs[2].event == TestFailEvent && subs[3].event == CompleteEvent;
    var j :| 0 <= j < 4 && subs[j] == Subscription(t, h);
    assert (base + subs)[|base| + j] == Subscription(t, h);
  }

  /** executeTestsWithinY(tests, cb): append testRunner to the modules, clear
      the runner's suites, and load the modules into a new YUI instance (the
      suites the loading adds are `load(tests)`), which then calls
      testRunner. `hasNext` says whether `cb` is given. */
  method ExecuteTestsWithinY(engine: TestRunner, collector: Collector, tests: seq<string>, hasNext: bool,
                             session: nat, load: seq<string> -> seq<string>, script: seq<string> -> seq<Event>,
                             coverageOn: bool, coverageReportFails: bool)
    returns (used: seq<UseArg>, outcome: RunOutcome)
    requires Fresh(engine.subscribers, HandleEventOf(session))
    modifies engine, collector
    ensures used == UseArgs(tests)
    ensures engine.suites == load(tests)
    ensures var events := script(load(tests));
      && collector.Snapshot() == Collect(old(collector.Snapshot()), events, coverageOn)
      && (FirstComplete(events) < |events| ==>
            && engine.subscribers == old(engine.subscribers)
            && outcome == if hasNext then Continued else Finished(ReportFrom(collector.Snapshot(), coverageOn, coverageReportFails)))
      && (FirstComplete(events) == |events| ==>
            && engine.subscribers == old(engine.subscribers) + Subscriptions(HandleEventOf(session))
            && outcome == Running)
  {
    used := UseArgs(tests);
    engine.Clear();
    engine.AddSuites(load(tests));
    outcome := TestRunnerCallback(engine, collector, session, hasNext, script, coverageOn, coverageReportFails);
  }

  /** The state of a run after its first `i` events: up to the first
      COMPLETE the handler is subscribed and has collected the failures so
      far; from then on it has unsubscribed and the run's outcome is set. */
  ghost predicate Progress(engine: TestRunner, collector: Collector, h: Handler, base: seq<Subscription>,
                           c0: Collected, events: seq<Event>, i: nat, suiteName: string, outcome: RunOutcome,
                           hasNext: bool, coverageOn: bool, coverageReportFails: bool)
    reads engine, collector
    requires i <= |events|
  {
    var k := FirstComplete(events);
    && (i <= k ==>
          && suiteName == NameAfter("", events[..i])
          && collector.Snapshot() == c0.(failures := c0.failures + FailuresOf("", events[..i]))
          && engine.subscribers == base + Subscriptions(h)
          && outcome == Running)
    && (k < i ==>
          && collector.Snapshot() == Collect(c0, events, coverageOn)
          && engine.subscribers == base
          && outcome == if hasNext then Continued else Finished(ReportFrom(collector.Snapshot(), coverageOn, coverageReportFails)))
  }

  /** The runner fires event `i`: the handler receives it if subscribed. */
  method FireEvent(engine: TestRunner, collector: Collector, session: nat, ghost base: seq<Subscription>,
                   ghost c0: Collected, events: seq<Event>, i: nat, suiteName: string, outcome: RunOutcome,
                   hasNext: bool, coverageOn: bool, coverageReportFails: bool)
    returns (suiteName': string, outcome': RunOutcome)
    requires i < |events| && Fresh(base, HandleEventOf(session))
    requires Progress(engine, collector, HandleEventOf(session), base, c0, events, i, suiteName, outcome,
                      hasNext, coverageOn, coverageReportFails)
    modifies engine, collector
    ensures engine.suites == old(engine.suites)
    ensures Progress(engine, collector, HandleEventOf(session), base, c0, events, i + 1, suiteName', outcome',
                     hasNext, coverageOn, coverageReportFails)
  {
    var h := HandleEventOf(session);
    ghost var k := FirstComplete(events);
    SubscribedTypes(base, h, TypeOf(events[i]));
    suiteName', outcome' := suiteName, outcome;
    if engine.Subscribed(TypeOf(events[i]), h) {
      assert i <= k;
      EventStep(events, i);
      suiteName', outcome' := HandleEvent(engine, collector, session, suiteName, events[i], hasNext,
                                          coverageOn, coverageReportFails);
      if i == k {
        DetachAllAppended(base, Subscriptions(h));
        assert events[..i] == events[..k];
      } else {
        assert !events[i].Complete?;
      }
    } else {
      assert k < i;
    }
  }

  /** testRunner(Y): subscribe handleEvent to the four events and run the
      suites the runner holds; the runner fires `script(suites)`, and
      delivers each event to the handler while it is subscribed. */
  method TestRunnerCallback(engine: TestRunner, collector: Collector, session: nat, hasNext: bool,
                            script: seq<string> -> seq<Event>, coverageOn: bool, coverageReportFails: bool)
    returns (outcome: RunOutcome)
    requires Fresh(engine.subscribers, HandleEventOf(session))
    modifies engine, collector
    ensures engine.suites == old(engine.suites)
    ensures var events := script(engine.suites);
      && collector.Snapshot() == Collect(old(collector.Snapshot()), events, coverageOn)
      && (FirstComplete(events) < |events| ==>
            && engine.subscribers == old(engine.subscribers)
            && outcome == if hasNext then Continued else Finished(ReportFrom(collector.Snapshot(), coverageOn, coverageReportFails)))
      && (FirstComplete(events) == |events| ==>
            && engine.subscribers == old(engine.subscribers) + Subscriptions(HandleEventOf(session))
            && outcome == Running)
  {
    var h := HandleEventOf(session);
    ghost var base := engine.subscribers;
    ghost var c0 := collector.Snapshot();
    engine.Subscribe(BeginEvent, h);
    engine.Subscribe(TestSuiteBeginEvent, h);
    engine.Subscribe(TestFailEvent, h);
    engine.Subscribe(CompleteEvent, h);
    assert engine.subscribers == base + Subscriptions(h);
    var events := script(engine.suites);
    var suiteName := "";
    outcome := Running;
    var i := 0;
    assert events[..0] == [];
    while i < |events|
      invariant 0 <= i <= |events|
      invariant engine.suites == old(engine.suites)
      invariant Progress(engine, collector, h, base, c0, events, i, suiteName, outcome,
                         hasNext, coverageOn, coverageReportFails)
    {
      suiteName, outcome := FireEvent(engine, collector, session, base, c0, events, i, suiteName, outcome,
                                      hasNext, coverageOn, coverageReportFails);
      i := i + 1;
    }
    TakeAll(events, i);
  }

  // ---------------------------------------------------------------------------
  // execTestQueueInY(queue)

  /** The modules of one queued run. */
  function RunModules(name: string): (r: seq<string>) {
    [name, "mojito", "mojito-test"]
  }

  /** The order `pop()` takes the queue in. */
  function Reversed(q: seq<string>): (r: seq<string>)
    ensures |r| == |q|
    ensures forall j :: 0 <= j < |q| ==> r[j] == q[|q| - 1 - j]
  {
    seq(|q|, j requires 0 <= j < |q| => q[|q| - 1 - j])
  }

  /** The events of the run of the queued module `name`. */
  function RunEvents(load: seq<string> -> seq<string>, script: seq<string> -> seq<Event>, name: string)
    : (r: seq<Event>)
  {
    script(load(RunModules(name)))
  }

  /** Whether the run of `name` reaches COMPLETE. */
  predicate Completes(load: seq<string> -> seq<string>, script: seq<string> -> seq<Event>, name: string) {
    FirstComplete(RunEvents(load, script, name)) < |RunEvents(load, script, name)|
  }

  /** The results the COMPLETE of a completing run carries. */
  function RunResults(load: seq<string> -> seq<string>, script: seq<string> -> seq<Event>, name: string): (r: Suite)
    requires Completes(load, script, name)
  {
    RunEvents(load, script, name)[FirstComplete(RunEvents(load, script, name))].results
  }

  /** The collections after the runs of `names`, in that order. */
  function CollectRuns(c: Collected, names: seq<string>, load: seq<string> -> seq<string>,
                       script: seq<string> -> seq<Event>, coverageOn: bool): (r: Collected)
    decreases |names|
  {
    if names == [] then c
    else Collect(CollectRuns(c, names[..|names| - 1], load, script, coverageOn),
                 RunEvents(load, script, names[|names| - 1]), coverageOn)
  }

  /** Popping the last of the remaining queue extends the pop order. */
  lemma PopStep(queue: seq<string>, rest: seq<string>, ran: seq<string>)
    requires |ran| + |rest| == |queue| && rest == queue[..|rest|] && |rest| > 0
    requires ran == Reversed(queue)[..|ran|]
    ensures ran + [rest[|rest| - 1]] == Reversed(queue)[..|ran| + 1]
    ensures rest[..|rest| - 1] == queue[..|rest| - 1]
  {
    assert Reversed(queue)[|ran|] == queue[|rest| - 1];
  }

  /** No handleEvent closure of session `first` or later is subscribed. */
  predicate FreshFrom(subs: seq<Subscription>, first: nat) {
    forall s :: s in subs ==> !(s.handler.HandleEventOf? && s.handler.session >= first)
  }

  /** The session of the last of the runs `ran`, numbered from `first`. */
  function LastSession(first: nat, ran: seq<string>): (r: nat)
    requires |ran| > 0
  {
    first + |ran| - 1
  }

  /** execTestQueueInY: pop the last module, run it with `mojito` and
      `mojito-test`, and let the run's COMPLETE go on with the rest of the
      queue while there is one, or process the results after the last. A
      run that never completes ends the chain. Each run's handleEvent is a
      new closure, session `firstSession` for the first run, and so on. */
  method ExecTestQueueInY(engine: TestRunner, collector: Collector, queue: seq<string>, firstSession: nat,
                          load: seq<string> -> seq<string>, script: seq<string> -> seq<Event>,
                          coverageOn: bool, coverageReportFails: bool)
    returns (ran: seq<string>, outcome: RunOutcome)
    requires |queue| > 0
    requires FreshFrom(engine.subscribers, firstSession)
    modifies engine, collector
    ensures 1 <= |ran| <= |queue| && ran == Reversed(queue)[..|ran|]
    ensures forall j :: 0 <= j < |ran| - 1 ==> Completes(load, script, ran[j])
    ensures collector.Snapshot() == CollectRuns(old(collector.Snapshot()), ran, load, script, coverageOn)
    ensures Completes(load, script, ran[|ran| - 1]) ==>
              && ran == Reversed(queue)
              && engine.subscribers == old(engine.subscribers)
              && outcome == Finished(ReportFrom(collector.Snapshot(), coverageOn, coverageReportFails))
    ensures !Completes(load, script, ran[|ran| - 1]) ==>
              && engine.subscribers == old(engine.subscribers) + Subscriptions(HandleEventOf(LastSession(firstSession, ran)))
              && outcome == Running
    ensures engine.suites == load(RunModules(ran[|ran| - 1]))
  {
    ghost var c0 := collector.Snapshot();
    ghost var subs0 := engine.subscribers;
    var rest := queue;
    ran := [];
    var session := firstSession;
    // the situation after a run whose COMPLETE asked for the next one
    outcome := Continued;
    while outcome == Continued
      invariant |ran| + |rest| == |queue| && rest == queue[..|rest|]
      invariant ran == Reversed(queue)[..|ran|]
      invariant session == firstSession + |ran|
      invariant outcome == Continued ==> |rest| > 0 && engine.subscribers == subs0
      invariant outcome != Continued ==> |ran| > 0
      invariant forall j :: 0 <= j < |ran| - 1 ==> Completes(load, script, ran[j])
      invariant outcome == Continued ==> forall j :: 0 <= j < |ran| ==> Completes(load, script, ran[j])
      invariant collector.Snapshot() == CollectRuns(c0, ran, load, script, coverageOn)
      invariant outcome.Finished? ==>
                  && |rest| == 0 && Completes(load, script, ran[|ran| - 1])
                  && engine.subscribers == subs0
                  && outcome == Finished(ReportFrom(collector.Snapshot(), coverageOn, coverageReportFails))
      invariant outcome.Running? ==>
                  && !Completes(load, script, ran[|ran| - 1])
                  && engine.subscribers == subs0 + Subscriptions(HandleEventOf(LastSession(firstSession, ran)))
      invariant |ran| > 0 ==> engine.suites == load(RunModules(ran[|ran| - 1]))
      decreases |rest|, if outcome == Continued then 1 else 0
    {
      PopStep(queue, rest, ran);
      var name := rest[|rest| - 1];
      ghost var prev := ran;
      rest := rest[..|rest| - 1];
      ran := ran + [name];
      assert ran[..|ran| - 1] == prev;
      var used;
      used, outcome := ExecuteTestsWithinY(engine, collector, RunModules(name), |rest| > 0, session,
                                        load, script, coverageOn, coverageReportFails);
      session := session + 1;
    }
  }

  // ---------------------------------------------------------------------------
  // Properties of a run and of the queue

  function FailCount(events: seq<Event>): (r: nat)
    decreases |events|
  {
    if events == [] then 0
    else FailCount(events[..|events| - 1]) + if events[|events| - 1].Fail? then 1 else 0
  }

  /** One failure record per TEST_FAIL event, in event order, each under the
      suite name the handler held when the event arrived. */
  lemma {:induction false} FailuresRecorded(name: string, events: seq<Event>, j: nat)
    requires j < |events| && events[j].Fail?
    ensures |FailuresOf(name, events)| == FailCount(events)
    ensures FailCount(events[..j]) < FailCount(events)
    ensures FailuresOf(name, events)[FailCount(events[..j])]
         == FailureRecord(NameAfter(name, events[..j]), events[j].caseName, events[j].testName,
                          events[j].message, events[j].stack)
    decreases |events|
  {
    var front := events[..|events| - 1];
    FailuresCounted(name, front);
    if j < |events| - 1 {
      FailuresRecorded(name, front, j);
      assert front[..j] == events[..j];
    } else {
      assert front == events[..j];
    }
  }

  lemma {:induction false} FailuresCounted(name: string, events: seq<Event>)
    ensures |FailuresOf(name, events)| == FailCount(events)
    decreases |events|
  {
    if events != [] {
      FailuresCounted(name, events[..|events| - 1]);
    }
  }

  /** The suite name is that of the latest TEST_SUITE_BEGIN, or the initial
      one before any. */
  lemma {:induction false} NameIsLatestSuite(name: string, events: seq<Event>, j: int)
    requires -1 <= j < |events|
    requires j >= 0 ==> events[j].SuiteBegin?
    requires forall l :: j < l < |events| ==> !events[l].SuiteBegin?
    ensures NameAfter(name, events) == if j >= 0 then events[j].testSuiteName else name
    decreases |events|
  {
    if events != [] && j < |events| - 1 {
      var front := events[..|events| - 1];
      NameIsLatestSuite(name, front, j);
    }
  }

  lemma {:induction false} FirstCompleteExtends(events: seq<Event>, more: seq<Event>)
    requires FirstComplete(events) < |events|
    ensures FirstComplete(events + more) == FirstComplete(events)
    decreases |events|
  {
    if !events[0].Complete? {
      assert (events + more)[1..] == events[1..] + more;
      FirstCompleteExtends(events[1..], more);
    }
  }

  /** Events fired after COMPLETE change nothing: the handler has
      unsubscribed by then. */
  lemma EventsAfterCompleteIgnored(c: Collected, events: seq<Event>, more: seq<Event>, coverageOn: bool)
    requires FirstComplete(events) < |events|
    ensures Collect(c, events + more, coverageOn) == Collect(c, events, coverageOn)
  {
    var k := FirstComplete(events);
    FirstCompleteExtends(events, more);
    assert (events + more)[..k] == events[..k];
    assert (events + more)[k] == events[k];
  }

  /** With coverage on, a file's coverage from a completed run replaces the
      one collected before, and the other files keep theirs. */
  lemma CoverageOverwrites(c: Collected, events: seq<Event>, file: string)
    requires FirstComplete(events) < |events|
    ensures var json := events[FirstComplete(events)].coverage;
      var after := Collect(c, events, true).coverage;
      && (file in after <==> file in c.coverage || file in json)
      && (file in json ==> after[file] == json[file])
      && (file !in json && file in c.coverage ==> after[file] == c.coverage[file])
  {
  }

  /** When every queued run completes, each leaves one results entry and one
      JUnit document, in run order. */
  lemma {:induction false} OneResultPerRun(c: Collected, names: seq<string>, load: seq<string> -> seq<string>,
                                           script: seq<string> -> seq<Event>, coverageOn: bool)
    requires forall j :: 0 <= j < |names| ==> Completes(load, script, names[j])
    ensures var after := CollectRuns(c, names, load, script, coverageOn);
      && |after.results| == |c.results| + |names|
      && |after.junitXml| == |c.junitXml| + |names|
      && after.results[..|c.results|] == c.results
      && forall j :: 0 <= j < |names| ==> after.results[|c.results| + j] == RunResults(load, script, names[j])
    decreases |names|
  {
    if names != [] {
      var front := names[..|names| - 1];
      OneResultPerRun(c, front, load, script, coverageOn);
    }
  }

  /** The queue is run in the reverse of its order: every module once, the
      sorted names from the greatest down. */
  lemma {:induction false} PopOrderIsPermutation(q: seq<string>)
    ensures multiset(Reversed(q)) == multiset(q)
    ensures Sorted(q) ==> forall i, j :: 0 <= i < j < |q| ==> StrLe(Reversed(q)[j], Reversed(q)[i])
    decreases |q|
  {
    if q != [] {
      var front := q[..|q| - 1];
      PopOrderIsPermutation(front);
      assert Reversed(q) == [q[|q| - 1]] + Reversed(front);
      assert q == front + [q[|q| - 1]];
    }
  }

  // ---------------------------------------------------------------------------
  // The end of runTests' testRunner

  /** How the selection and the runs end: the callback's error when nothing
      was selected, the queue of app runs, or the one run of a mojit. */
  datatype CommandEnd = NoTests(message: string) | AppRuns(ran: seq<string>, outcome: RunOutcome) | MojitRun(outcome: RunOutcome)

  /** Select the test modules among the configured names `keys`; report
      that none was found, or run them: an app's one by one through the
      queue, a mojit's all together in one run that processes the results. */
  method RunSelected(engine: TestRunner, collector: Collector, testType: string, keys: seq<string>,
                     targetTests: seq<string>, firstSession: nat, load: seq<string> -> seq<string>,
                     script: seq<string> -> seq<Event>, coverageOn: bool, coverageReportFails: bool)
    returns (r: CommandEnd)
    requires FreshFrom(engine.subscribers, firstSession)
    modifies engine, collector
    ensures Selection(keys, targetTests, testType).Err? ==>
              && r == NoTests(Selection(keys, targetTests, testType).error)
              && collector.Snapshot() == old(collector.Snapshot())
              && engine.subscribers == old(engine.subscribers) && engine.suites == old(engine.suites)
    ensures Selection(keys, targetTests, testType).Ok? && testType == "app" ==>
              var sel := Selection(keys, targetTests, testType).value;
              && r.AppRuns? && 1 <= |r.ran| <= |sel| && r.ran == Reversed(sel)[..|r.ran|]
              && collector.Snapshot() == CollectRuns(old(collector.Snapshot()), r.ran, load, script, coverageOn)
              && engine.suites == load(RunModules(r.ran[|r.ran| - 1]))
              && (Completes(load, script, r.ran[|r.ran| - 1]) ==>
                    && r.ran == Reversed(sel)
                    && engine.subscribers == old(engine.subscribers)
                    && r.outcome == Finished(ReportFrom(collector.Snapshot(), coverageOn, coverageReportFails)))
              && (!Completes(load, script, r.ran[|r.ran| - 1]) ==>
                    && engine.subscribers == old(engine.subscribers)
                                             + Subscriptions(HandleEventOf(LastSession(firstSession, r.ran)))
                    && r.outcome == Running)
    ensures Selection(keys, targetTests, testType).Ok? && testType != "app" ==>
              var sel := Selection(keys, targetTests, testType).value;
              var events := script(load(sel));
              && r.MojitRun?
              && collector.Snapshot() == Collect(old(collector.Snapshot()), events, coverageOn)
              && engine.suites == load(sel)
              && (FirstComplete(events) < |events| ==>
                    && engine.subscribers == old(engine.subscribers)
                    && r.outcome == Finished(ReportFrom(collector.Snapshot(), coverageOn, coverageReportFails)))
              && (FirstComplete(events) == |events| ==>
                    && engine.subscribers == old(engine.subscribers) + Subscriptions(HandleEventOf(firstSession))
                    && r.outcome == Running)
  {
    var selection := SelectTestModules(keys, targetTests, testType);
    if selection.Err? {
      return NoTests(selection.error);
    }
    var testModuleNames := selection.value;
    if testType == "app" {
      var ran, outcome := ExecTestQueueInY(engine, collector, testModuleNames, firstSession, load, script,
                                           coverageOn, coverageReportFails);
      return AppRuns(ran, outcome);
    } else {
      assert Fresh(engine.subscribers, HandleEventOf(firstSession));
      var used, outcome := ExecuteTestsWithinY(engine, collector, testModuleNames, false, firstSession, load, script,
                                               coverageOn, coverageReportFails);
      return MojitRun(outcome);
    }
  }
}
