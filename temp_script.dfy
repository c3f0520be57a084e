/**
 * temp.js: a scratch runner for one app. It selects the test modules by the
 * `-tests` suffix alone, and its executeTestsWithinY(tests, cb) runs them
 * with the single-handler protocol of test.js. Its collectRunResults
 * returns before collecting anything, and without `cb` the run ends by
 * printing "done".
 */
module TempScript {
  import opened Common
  import opened YuiTestEngine
  import TestSelection
  import MojitModules
  import TestRun
  import LibRun

  // ---------------------------------------------------------------------------
  // getTestModuleNames(modlist, whitelist)

  /** What getTestModuleNames returns for a modlist with keys `keys`: the
      base pair and every key the expression `/-tests$/` matches, sorted. */
  function TestModuleNames(keys: seq<string>): (r: seq<string>) {
    Sort(MojitModules.TestWith + TestSelection.Picks(keys, []))
  }

  /** getTestModuleNames: push the matching keys after the base pair, then
      sort. The whitelist is not looked at. */
  method GetTestModuleNames(keys: seq<string>, whitelist: seq<string>) returns (names: seq<string>)
    ensures names == TestModuleNames(keys)
  {
    names := MojitModules.TestWith;
    var i := 0;
    while i < |keys|
      invariant 0 <= i <= |keys|
      invariant names == MojitModules.TestWith + TestSelection.Picks(keys[..i], [])
    {
      TakeNext(keys, i);
      var name := keys[i];
      assert keys[..i + 1][..i] == keys[..i];
      if TestSelection.IsTestsName(name) {
        assert TestSelection.Repeat(name, 1) == [name];
        names := names + [name];
      }
      i := i + 1;
    }
    TakeAll(keys, i);
    names := Sort(names);
  }

  /** The result is sorted, holds the base pair once each, and every
      matching key once more. */
  lemma TestModuleNamesCount(keys: seq<string>, x: string)
    requires Distinct(keys)
    ensures Sorted(TestModuleNames(keys))
    ensures multiset(TestModuleNames(keys))[x]
         == (if x == "mojito" || x == "mojito-test" then 1 else 0)
          + (if x in keys && TestSelection.IsTestsName(x) then 1 else 0)
  {
    TestSelection.PicksCount(keys, [], x);
    var picks := TestSelection.Picks(keys, []);
    assert multiset(MojitModules.TestWith + picks) == multiset(MojitModules.TestWith) + multiset(picks);
  }

  lemma {:induction false} NoPicks(keys: seq<string>)
    requires forall k :: k in keys ==> !TestSelection.IsTestsName(k)
    ensures TestSelection.Picks(keys, []) == []
    decreases |keys|
  {
    if keys != [] {
      assert keys[|keys| - 1] in keys;
      NoPicks(keys[..|keys| - 1]);
    }
  }

  /** A modlist with no `-tests` key gives just the base pair. */
  lemma OnlyBasePair(keys: seq<string>)
    requires forall k :: k in keys ==> !TestSelection.IsTestsName(k)
    ensures TestModuleNames(keys) == ["mojito", "mojito-test"]
  {
    NoPicks(keys);
    assert MojitModules.TestWith + [] == ["mojito", "mojito-test"];
    assert StrLe("mojito", "mojito-test") by {
      assert "mojito-test"[..6] == "mojito";
      PrefixStrLe("mojito", "mojito-test");
    }
    assert Sorted(["mojito", "mojito-test"]);
    SortedUnique(TestModuleNames(keys), ["mojito", "mojito-test"]);
  }

  /** Beside the base pair, the same names as the selection of test.js
      without `--testname`; lib/module.js's filterNames differs only on
      names ending in `-test`, which it also takes. */
  lemma AgreesWithOtherSelections(keys: seq<string>, testType: string, x: string)
    requires Distinct(keys)
    ensures var sel := TestSelection.Selection(keys, [], testType);
      sel.Ok? ==> multiset(TestModuleNames(keys)) == multiset(MojitModules.TestWith) + multiset(sel.value)
    ensures !EndsWith(x, "-test") ==>
              multiset(TestModuleNames(keys))[x] == multiset(MojitModules.FilteredNames(keys, []))[x]
  {
    var picks := TestSelection.Picks(keys, []);
    assert multiset(MojitModules.TestWith + picks) == multiset(MojitModules.TestWith) + multiset(picks);
    TestModuleNamesCount(keys, x);
    MojitModules.FilteredNamesCounts(keys, [], x);
  }

  // ---------------------------------------------------------------------------
  // executeTestsWithinY(tests, cb)

  /** How a run ends: not yet, in `cb`, or by printing "done". */
  datatype Ending = Pending | CallbackCalled | PrintedDone

  /** handleEvent: BEGIN runs the preProcessor (whose body is commented
      out), TEST_SUITE_BEGIN records the suite name, TEST_FAIL collects a
      failure under it, and COMPLETE unsubscribes the four subscriptions,
      collects nothing, and calls `cb` or prints "done". */
  method HandleEvent(engine: TestRunner, collector: TestRun.Collector, session: nat, suiteName: string, e: Event,
                     hasCb: bool)
    returns (newSuiteName: string, ending: Ending)
    modifies engine, collector
    ensures newSuiteName == if e.SuiteBegin? then e.testSuiteName else suiteName
    ensures engine.suites == old(engine.suites)
    ensures !e.Complete? ==> engine.subscribers == old(engine.subscribers) && ending == Pending
    ensures e.Fail? ==> collector.Snapshot() == old(collector.Snapshot()).(failures := old(collector.failures)
                          + [LibRun.FailureRecordOf(suiteName, e)])
    ensures !e.Fail? ==> collector.Snapshot() == old(collector.Snapshot())
    ensures e.Complete? ==>
      && engine.subscribers == DetachAll(old(engine.subscribers), TestRun.Subscriptions(HandleEventOf(session)))
      && ending == if hasCb then CallbackCalled else PrintedDone
  {
    newSuiteName := suiteName;
    ending := Pending;
    match e {
      case Begin =>
      case SuiteBegin(name) =>
        newSuiteName := name;
      case Fail(caseName, testName, message, stack) =>
        collector.CollectFailure(suiteName, caseName, testName, message, stack);
      case Complete(results, _, _) =>
        var h := HandleEventOf(session);
        engine.Unsubscribe(BeginEvent, h);
        engine.Unsubscribe(TestSuiteBeginEvent, h);
        engine.Unsubscribe(TestFailEvent, h);
        engine.Unsubscribe(CompleteEvent, h);
        DetachFour(old(engine.subscribers), Subscription(BeginEvent, h), Subscription(TestSuiteBeginEvent, h),
                   Subscription(TestFailEvent, h), Subscription(CompleteEvent, h));
        // collectRunResults(event.results) logs the counts and returns
        ending := if hasCb then CallbackCalled else PrintedDone;
    }
  }

  /** The state of a run after its first `i` events. */
  ghost predicate Progress(engine: TestRunner, collector: TestRun.Collector, h: Handler, base: seq<Subscription>,
                           c0: TestRun.Collected, events: seq<Event>, i: nat, suiteName: string, ending: Ending,
                           hasCb: bool)
    reads engine, collector
    requires i <= |events|
  {
    var k := TestRun.FirstComplete(events);
    && (i <= k ==>
          && suiteName == TestRun.NameAfter("", events[..i])
          && collector.Snapshot() == c0.(failures := c0.failures + TestRun.FailuresOf("", events[..i]))
          && engine.subscribers == base + TestRun.Subscriptions(h)
          && ending == Pending)
    && (k < i ==>
          && collector.Snapshot() == LibRun.CollectFailures(c0, events)
          && engine.subscribers == base
          && ending == if hasCb then CallbackCalled else PrintedDone)
  }

  /** The runner fires event `i`: the handler receives it if subscribed. */
  method FireEvent(engine: TestRunner, collector: TestRun.Collector, session: nat, ghost base: seq<Subscription>,
                   ghost c0: TestRun.Collected, events: seq<Event>, i: nat, suiteName: string, ending: Ending,
                   hasCb: bool)
    returns (suiteName': string, ending': Ending)
    requires i < |events| && TestRun.Fresh(base, HandleEventOf(session))
    requires Progress(engine, collector, HandleEventOf(session), base, c0, events, i, suiteName, ending, hasCb)
    modifies engine, collector
    ensures engine.suites == old(engine.suites)
    ensures Progress(engine, collector, HandleEventOf(session), base, c0, events, i + 1, suiteName', ending', hasCb)
  {
    var h := HandleEventOf(session);
    ghost var k := TestRun.FirstComplete(events);
    TestRun.SubscribedTypes(base, h, TypeOf(events[i]));
    suiteName', ending' := suiteName, ending;
    if engine.Subscribed(TypeOf(events[i]), h) {
      assert i <= k;
      TestRun.EventStep(events, i);
      suiteName', ending' := HandleEvent(engine, collector, session, suiteName, events[i], hasCb);
      if i == k {
        DetachAllAppended(base, TestRun.Subscriptions(h));
        assert events[..i] == events[..k];
      } else {
        assert !events[i].Complete?;
      }
    } else {
      assert k < i;
    }
  }

  /** testRunner(Y): subscribe handleEvent to the four events and run. */
  method TestRunnerCallback(engine: TestRunner, collector: TestRun.Collector, session: nat, hasCb: bool,
                            script: seq<string> -> seq<Event>)
    returns (ending: Ending)
    requires TestRun.Fresh(engine.subscribers, HandleEventOf(session))
    modifies engine, collector
    ensures engine.suites == old(engine.suites)
    ensures var events := script(engine.suites);
      && collector.Snapshot() == LibRun.CollectFailures(old(collector.Snapshot()), events)
      && (TestRun.FirstComplete(events) < |events| ==>
            engine.subscribers == old(engine.subscribers) && ending == if hasCb then CallbackCalled else PrintedDone)
      && (TestRun.FirstComplete(events) == |events| ==>
            engine.subscribers == old(engine.subscribers) + TestRun.Subscriptions(HandleEventOf(session))
            && ending == Pending)
  {
    var h := HandleEventOf(session);
    ghost var base := engine.subscribers;
    ghost var c0 := collector.Snapshot();
    engine.Subscribe(BeginEvent, h);
    engine.Subscribe(TestSuiteBeginEvent, h);
    engine.Subscribe(TestFailEvent, h);
    engine.Subscribe(CompleteEvent, h);
    assert engine.subscribers == base + TestRun.Subscriptions(h);
    var events := script(engine.suites);
    var suiteName := "";
    ending := Pending;
    var i := 0;
    assert events[..0] == [];
    while i < |events|
      invariant 0 <= i <= |events|
      invariant engine.suites == old(engine.suites)
      invariant Progress(engine, collector, h, base, c0, events, i, suiteName, ending, hasCb)
    {
      suiteName, ending := FireEvent(engine, collector, session, base, c0, events, i, suiteName, ending, hasCb);
      i := i + 1;
    }
    TakeAll(events, i);
  }

  /** executeTestsWithinY(tests, cb): append testRunner to `tests`, clear
      the runner's suites, and load the modules into a new YUI instance
      (the suites they add are `load(tests)`), which calls testRunner. */
  method ExecuteTestsWithinY(engine: TestRunner, collector: TestRun.Collector, tests: seq<string>, hasCb: bool,
                             session: nat, load: seq<string> -> seq<string>, script: seq<string> -> seq<Event>)
    returns (used: seq<TestRun.UseArg>, ending: Ending)
    requires TestRun.Fresh(engine.subscribers, HandleEventOf(session))
    modifies engine, collector
    ensures used == TestRun.UseArgs(tests)
    ensures engine.suites == load(tests)
    ensures var events := script(load(tests));
      && collector.Snapshot() == LibRun.CollectFailures(old(collector.Snapshot()), events)
      && (TestRun.FirstComplete(events) < |events| ==>
            engine.subscribers == old(engine.subscribers) && ending == if hasCb then CallbackCalled else PrintedDone)
      && (TestRun.FirstComplete(events) == |events| ==>
            engine.subscribers == old(engine.subscribers) + TestRun.Subscriptions(HandleEventOf(session))
            && ending == Pending)
  {
    used := TestRun.UseArgs(tests);
    engine.Clear();
    engine.AddSuites(load(tests));
    ending := TestRunnerCallback(engine, collector, session, hasCb, script);
  }
}
