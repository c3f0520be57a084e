/**
 * lib/run.js: a stripped executeTestsWithinY(tests, YUI, T, cb) with one
 * handler per event (the shared preProcessor, and onbegin, onfail and
 * oncomplete closures per call), over its own module-level collections.
 * preProcessor, collectRunResults and processResults return before doing
 * anything, so only the failures are ever collected.
 */
module LibRun {
  import opened Common
  import opened YuiTestEngine
  import TestReport
  import TestRun

  /** How a run ends: not yet, in `cb`, or in processResults, which returns
      at once. */
  datatype Ending = Pending | CallbackCalled | ResultsProcessed

  /** The four subscriptions testRunner makes, in order. */
  function Handlers(session: nat): (r: seq<Subscription>) {
    [Subscription(BeginEvent, PreProcessor), Subscription(TestSuiteBeginEvent, OnBegin(session)),
     Subscription(TestFailEvent, OnFail(session)), Subscription(CompleteEvent, OnComplete(session))]
  }

  /** None of the closures of call `session` is subscribed. The module-level
      preProcessor may be: a run that never completed leaves it behind. */
  predicate SessionFresh(subs: seq<Subscription>, session: nat) {
    forall s :: s in subs ==> s.handler != OnBegin(session) && s.handler != OnFail(session) && s.handler != OnComplete(session)
  }

  /** The collections after one run's `events`: the failures up to COMPLETE,
      each under the suite name onbegin recorded, and nothing else. */
  function CollectFailures(c: TestRun.Collected, events: seq<Event>): (r: TestRun.Collected) {
    c.(failures := c.failures + TestRun.FailuresOf("", events[..TestRun.FirstComplete(events)]))
  }

  /** The failures are those test.js collects for the same events; the
      results, the JUnit documents and the coverage stay as they were. */
  lemma SameFailuresAsTestJs(c: TestRun.Collected, events: seq<Event>, coverageOn: bool)
    ensures CollectFailures(c, events).failures == TestRun.Collect(c, events, coverageOn).failures
    ensures var r := CollectFailures(c, events);
      r.results == c.results && r.junitXml == c.junitXml && r.coverage == c.coverage
  {
  }

  /** collectRunResults(results): logs the counts and returns. */
  method CollectRunResults(collector: TestRun.Collector, results: Suite)
    modifies collector
    ensures collector.Snapshot() == old(collector.Snapshot())
  {
  }

  /** processResults(): returns before merging, reporting or exiting. */
  method ProcessResults(collector: TestRun.Collector)
    modifies collector
    ensures collector.Snapshot() == old(collector.Snapshot())
  {
  }

  /** oncomplete: detach the four subscriptions testRunner made, collect
      (nothing), then call `cb` if there is one and processResults if not. */
  method OnCompleteHandler(engine: TestRunner, collector: TestRun.Collector, session: nat, results: Suite, hasCb: bool)
    returns (ending: Ending)
    modifies engine, collector
    ensures engine.subscribers == DetachAll(old(engine.subscribers), Handlers(session))
    ensures engine.suites == old(engine.suites)
    ensures collector.Snapshot() == old(collector.Snapshot())
    ensures ending == if hasCb then CallbackCalled else ResultsProcessed
  {
    engine.Unsubscribe(BeginEvent, PreProcessor);
    engine.Unsubscribe(TestSuiteBeginEvent, OnBegin(session));
    engine.Unsubscribe(TestFailEvent, OnFail(session));
    engine.Unsubscribe(CompleteEvent, OnComplete(session));
    DetachFour(old(engine.subscribers), Subscription(BeginEvent, PreProcessor), Subscription(TestSuiteBeginEvent, OnBegin(session)),
               Subscription(TestFailEvent, OnFail(session)), Subscription(CompleteEvent, OnComplete(session)));
    CollectRunResults(collector, results);
    if hasCb {
      ending := CallbackCalled;
    } else {
      ProcessResults(collector);
      ending := ResultsProcessed;
    }
  }

  /** The handler subscribed to the event's type receives it: preProcessor
      returns at once, onbegin records the suite name, onfail pushes a
      failure record under it, oncomplete ends the run. */
  method Deliver(engine: TestRunner, collector: TestRun.Collector, session: nat, suiteName: string, e: Event, hasCb: bool)
    returns (newSuiteName: string, ending: Ending)
    modifies engine, collector
    ensures newSuiteName == if e.SuiteBegin? then e.testSuiteName else suiteName
    ensures engine.suites == old(engine.suites)
    ensures !e.Complete? ==> engine.subscribers == old(engine.subscribers) && ending == Pending
    ensures e.Fail? ==> collector.Snapshot() == old(collector.Snapshot()).(failures := old(collector.failures)
                          + [FailureRecordOf(suiteName, e)])
    ensures !e.Fail? ==> collector.Snapshot() == old(collector.Snapshot())
    ensures e.Complete? ==>
      && engine.subscribers == DetachAll(old(engine.subscribers), Handlers(session))
      && ending == if hasCb then CallbackCalled else ResultsProcessed
  {
    newSuiteName := suiteName;
    ending := Pending;
    match e {
      case Begin =>
      case SuiteBegin(name) =>
        newSuiteName := name;
      case Fail(caseName, testName, message, stack) =>
        collector.CollectFailure(suiteName, caseName, testName, message, stack);
      case Complete(results, _, _) =>
        ending := OnCompleteHandler(engine, collector, session, results, hasCb);
    }
  }

  /** The record onfail pushes for the TEST_FAIL event `e`. */
  function FailureRecordOf(suiteName: string, e: Event): (r: TestReport.FailureRecord)
    requires e.Fail?
  {
    TestReport.FailureRecord(suiteName, e.caseName, e.testName, e.message, e.stack)
  }

  /** The state of a run after its first `i` events: up to COMPLETE the four
      handlers are subscribed; from then on they are detached again, leaving
      `after`, which holds what `base` held. */
  ghost predicate Progress(engine: TestRunner, collector: TestRun.Collector, session: nat, base: seq<Subscription>,
                           after: seq<Subscription>, c0: TestRun.Collected, events: seq<Event>, i: nat,
                           suiteName: string, ending: Ending, hasCb: bool)
    reads engine, collector
    requires i <= |events|
  {
    var k := TestRun.FirstComplete(events);
    && (i <= k ==>
          && suiteName == TestRun.NameAfter("", events[..i])
          && collector.Snapshot() == c0.(failures := c0.failures + TestRun.FailuresOf("", events[..i]))
          && engine.subscribers == base + Handlers(session)
          && ending == Pending)
    && (k < i ==>
          && collector.Snapshot() == CollectFailures(c0, events)
          && engine.subscribers == after
          && ending == if hasCb then CallbackCalled else ResultsProcessed)
  }

  /** The runner fires event `i` to the subscription of its type, if any. */
  method FireEvent(engine: TestRunner, collector: TestRun.Collector, session: nat, ghost base: seq<Subscription>,
                   ghost after: seq<Subscription>, ghost c0: TestRun.Collected, events: seq<Event>, i: nat,
                   suiteName: string, ending: Ending, hasCb: bool)
    returns (suiteName': string, ending': Ending)
    requires i < |events| && SessionFresh(base, session)
    requires after == DetachAll(base + Handlers(session), Handlers(session))
    requires multiset(after) == multiset(base)
    requires Progress(engine, collector, session, base, after, c0, events, i, suiteName, ending, hasCb)
    modifies engine, collector
    ensures engine.suites == old(engine.suites)
    ensures Progress(engine, collector, session, base, after, c0, events, i + 1, suiteName', ending', hasCb)
  {
    ghost var k := TestRun.FirstComplete(events);
    var e := events[i];
    suiteName', ending' := suiteName, ending;
    var h := match e
      case Begin => PreProcessor
      case SuiteBegin(_) => OnBegin(session)
      case Fail(_, _, _, _) => OnFail(session)
      case Complete(_, _, _) => OnComplete(session);
    assert Subscription(TypeOf(e), h) in Handlers(session);
    if engine.Subscribed(TypeOf(e), h) {
      if k < i {
        // only the module-level preProcessor can still be subscribed
        assert Subscription(TypeOf(e), h) in multiset(base);
        assert h == PreProcessor;
      } else {
        TestRun.EventStep(events, i);
      }
      var name, d := Deliver(engine, collector, session, suiteName, e, hasCb);
      suiteName' := name;
      if d != Pending {
        ending' := d;
      }
      if i == k {
        assert events[..i] == events[..k];
      }
    } else {
      assert Subscription(TypeOf(e), h) in base + Handlers(session);
      assert k < i;
    }
  }

  /** testRunner(): subscribe the four handlers and run the suites the
      runner holds; the runner fires `script(suites)`. */
  method TestRunnerCallback(engine: TestRunner, collector: TestRun.Collector, session: nat, hasCb: bool,
                            script: seq<string> -> seq<Event>)
    returns (ending: Ending)
    requires SessionFresh(engine.subscribers, session)
    modifies engine, collector
    ensures engine.suites == old(engine.suites)
    ensures var events := script(engine.suites);
      && collector.Snapshot() == CollectFailures(old(collector.Snapshot()), events)
      && (TestRun.FirstComplete(events) < |events| ==>
            && multiset(engine.subscribers) == multiset(old(engine.subscribers))
            && (Subscription(BeginEvent, PreProcessor) !in old(engine.subscribers) ==>
                  engine.subscribers == old(engine.subscribers))
            && ending == if hasCb then CallbackCalled else ResultsProcessed)
      && (TestRun.FirstComplete(events) == |events| ==>
            && engine.subscribers == old(engine.subscribers) + Handlers(session)
            && ending == Pending)
  {
    ghost var base := engine.subscribers;
    ghost var c0 := collector.Snapshot();
    ghost var after := DetachAll(base + Handlers(session), Handlers(session));
    DetachedAgain(base, session);
    engine.Subscribe(BeginEvent, PreProcessor);
    engine.Subscribe(TestSuiteBeginEvent, OnBegin(session));
    engine.Subscribe(TestFailEvent, OnFail(session));
    engine.Subscribe(CompleteEvent, OnComplete(session));
    assert engine.subscribers == base + Handlers(session);
    var events := script(engine.suites);
    var suiteName := "";
    ending := Pending;
    var i := 0;
    assert events[..0] == [];
    while i < |events|
      invariant 0 <= i <= |events|
      invariant engine.suites == old(engine.suites)
      invariant Progress(engine, collector, session, base, after, c0, events, i, suiteName, ending, hasCb)
    {
      suiteName, ending := FireEvent(engine, collector, session, base, after, c0, events, i, suiteName, ending, hasCb);
      i := i + 1;
    }
    TakeAll(events, i);
  }

  /** executeTestsWithinY(tests, YUI, T, cb): append testRunner to `tests`,
      clear the runner `T`, then load the modules into a new YUI instance
      (the suites they add are `load(tests)`), which calls testRunner. */
  method ExecuteTestsWithinY(engine: TestRunner, collector: TestRun.Collector, tests: seq<string>, hasCb: bool,
                             session: nat, load: seq<string> -> seq<string>, script: seq<string> -> seq<Event>)
    returns (used: seq<TestRun.UseArg>, ending: Ending)
    requires SessionFresh(engine.subscribers, session)
    modifies engine, collector
    ensures used == TestRun.UseArgs(tests)
    ensures engine.suites == load(tests)
    ensures var events := script(load(tests));
      && collector.Snapshot() == CollectFailures(old(collector.Snapshot()), events)
      && (TestRun.FirstComplete(events) < |events| ==>
            && multiset(engine.subscribers) == multiset(old(engine.subscribers))
            && (Subscription(BeginEvent, PreProcessor) !in old(engine.subscribers) ==>
                  engine.subscribers == old(engine.subscribers))
            && ending == if hasCb then CallbackCalled else ResultsProcessed)
      && (TestRun.FirstComplete(events) == |events| ==>
            && engine.subscribers == old(engine.subscribers) + Handlers(session)
            && ending == Pending)
  {
    used := TestRun.UseArgs(tests);
    engine.Clear();
    engine.AddSuites(load(tests));
    ending := TestRunnerCallback(engine, collector, session, hasCb, script);
  }

  /** Detaching the four again leaves what was there before, in the same
      order unless a preProcessor subscription was there already. */
  lemma DetachedAgain(base: seq<Subscription>, session: nat)
    requires SessionFresh(base, session)
    ensures multiset(DetachAll(base + Handlers(session), Handlers(session))) == multiset(base)
    ensures Subscription(BeginEvent, PreProcessor) !in base ==>
              DetachAll(base + Handlers(session), Handlers(session)) == base
  {
    DetachAllMultiset(base + Handlers(session), Handlers(session));
    assert multiset(base + Handlers(session)) == multiset(base) + multiset(Handlers(session));
    if Subscription(BeginEvent, PreProcessor) !in base {
      DetachAllAppended(base, Handlers(session));
    }
  }

  /** After a completed run none of its closures is subscribed, and the other
      subscriptions are there as often as before. */
  lemma NoneRemain(before: seq<Subscription>, after: seq<Subscription>, session: nat)
    requires SessionFresh(before, session)
    requires multiset(after) == multiset(before)
    ensures SessionFresh(after, session)
    ensures forall s :: s in after <==> s in before
  {
    forall s | s in after ensures s in before {
      assert s in multiset(after);
    }
    forall s | s in before ensures s in after {
      assert s in multiset(before);
    }
  }
}
