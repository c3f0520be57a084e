/**
 * The part of YUITest.TestRunner the test command relies on: an event
 * emitter whose handlers are (event type, handler) subscriptions, and a
 * master suite that `clear()` empties. A run is the sequence of events the
 * runner fires for the suites it holds; it is a parameter (`script`).
 */
module YuiTestEngine {

  datatype EventType = BeginEvent | TestSuiteBeginEvent | TestFailEvent | CompleteEvent

  /** The result tree the runner reports with COMPLETE: a suite holds test
      cases, nested suites and other objects; a test case holds its tests. */
  datatype TestResult = TestResult(name: string, result: string)

  datatype ResultItem =
    | TestCase(caseName: string, tests: seq<TestResult>)
    | TestSuite(suite: Suite)
    | OtherObject

  /** A suite, and the report object itself: a name and the object-valued
      properties, in property order. */
  datatype Suite = Suite(name: string, items: seq<ResultItem>)

  /** An event as the handlers see it: the suite of TEST_SUITE_BEGIN, the
      test case name, test name, error message and stack of TEST_FAIL, and
      for COMPLETE the results together with what `getResults(JUnitXML)` and
      the parsed `getCoverage(JSON)` return at that moment. */
  datatype Event =
    | Begin
    | SuiteBegin(testSuiteName: string)
    | Fail(caseName: string, testName: string, message: string, stack: string)
    | Complete(results: Suite, junitXml: string, coverage: map<string, string>)

  function TypeOf(e: Event): (r: EventType) {
    match e
    case Begin => BeginEvent
    case SuiteBegin(_) => TestSuiteBeginEvent
    case Fail(_, _, _, _) => TestFailEvent
    case Complete(_, _, _) => CompleteEvent
  }

  /** A handler function. Closures made by different calls of
      executeTestsWithinY are different functions: `session` tells them apart. */
  datatype Handler =
    | HandleEventOf(session: nat)  // test.js and temp.js: one handleEvent for the four events
    | PreProcessor                 // lib/run.js: the module-level preProcessor
    | OnBegin(session: nat)        // lib/run.js
    | OnFail(session: nat)         // lib/run.js
    | OnComplete(session: nat)     // lib/run.js

  datatype Subscription = Subscription(event: EventType, handler: Handler)

  /** `subs` without its first occurrence of `s` (detach removes one). */
  function Without(subs: seq<Subscription>, s: Subscription): (r: seq<Subscription>)
    ensures s !in subs ==> r == subs
    ensures |r| == if s in subs then |subs| - 1 else |subs|
    decreases |subs|
  {
    if subs == [] then []
    else if subs[0] == s then subs[1..]
    else [subs[0]] + Without(subs[1..], s)
  }

  /** Detaching a subscription that was added after the others, and that
      they do not contain, leaves exactly the others. */
  lemma {:induction false} WithoutAppended(base: seq<Subscription>, s: Subscription, rest: seq<Subscription>)
    requires s !in base
    ensures Without(base + [s] + rest, s) == base + rest
    decreases |base|
  {
    if base != [] {
      assert (base + [s] + rest)[1..] == base[1..] + [s] + rest;
      WithoutAppended(base[1..], s, rest);
      assert base == [base[0]] + base[1..];
    } else {
      assert base + [s] + rest == [s] + rest;
    }
  }

  /** Detaching, in order, subscriptions that were appended in that order. */
  function DetachAll(subs: seq<Subscription>, detached: seq<Subscription>): (r: seq<Subscription>)
    decreases |detached|
  {
    if detached == [] then subs else DetachAll(Without(subs, detached[0]), detached[1..])
  }

  /** Detaching four subscriptions one after the other. */
  lemma DetachFour(subs: seq<Subscription>, a: Subscription, b: Subscription, c: Subscription, d: Subscription)
    ensures DetachAll(subs, [a, b, c, d]) == Without(Without(Without(Without(subs, a), b), c), d)
  {
    var s1 := Without(subs, a);
    var s2 := Without(s1, b);
    var s3 := Without(s2, c);
    assert [a, b, c, d][1..] == [b, c, d];
    assert [b, c, d][1..] == [c, d];
    assert [c, d][1..] == [d];
    assert [d][1..] == [];
    assert DetachAll(s3, [d]) == Without(s3, d);
    assert DetachAll(s2, [c, d]) == DetachAll(s3, [d]);
    assert DetachAll(s1, [b, c, d]) == DetachAll(s2, [c, d]);
  }

  /** Fresh subscriptions added and then detached in the same order leave
      the subscriptions as they were. */
  lemma {:induction false} DetachAllAppended(base: seq<Subscription>, added: seq<Subscription>)
    requires forall s :: s in added ==> s !in base
    ensures DetachAll(base + added, added) == base
    decreases |added|
  {
    if added == [] {
      assert base + added == base;
    } else {
      assert base + added == base + [added[0]] + added[1..];
      WithoutAppended(base, added[0], added[1..]);
      DetachAllAppended(base, added[1..]);
    }
  }

  /** Detaching a subscription that is there takes exactly one copy away. */
  lemma {:induction false} WithoutMultiset(subs: seq<Subscription>, s: Subscription)
    requires s in subs
    ensures multiset(Without(subs, s)) == multiset(subs) - multiset{s}
    decreases |subs|
  {
    assert subs == [subs[0]] + subs[1..];
    if subs[0] != s {
      WithoutMultiset(subs[1..], s);
    }
  }

  /** Detaching subscriptions that are all there, whatever their positions,
      takes one copy of each away. */
  lemma {:induction false} DetachAllMultiset(subs: seq<Subscription>, detached: seq<Subscription>)
    requires multiset(detached) <= multiset(subs)
    ensures multiset(DetachAll(subs, detached)) == multiset(subs) - multiset(detached)
    decreases |detached|
  {
    if detached != [] {
      var d := detached[0];
      assert detached == [d] + detached[1..];
      assert d in multiset(subs);
      WithoutMultiset(subs, d);
      DetachAllMultiset(Without(subs, d), detached[1..]);
    }
  }

  class TestRunner {
    /** The handlers, in subscription order. */
    var subscribers: seq<Subscription>
    /** The names of the suites of the master suite, in the order added. */
    var suites: seq<string>

    constructor ()
      ensures subscribers == [] && suites == []
    {
      subscribers := [];
      suites := [];
    }

    predicate Subscribed(event: EventType, handler: Handler)
      reads this
    {
      Subscription(event, handler) in subscribers
    }

    method Subscribe(event: EventType, handler: Handler)
      modifies this
      ensures subscribers == old(subscribers) + [Subscription(event, handler)]
      ensures suites == old(suites)
    {
      subscribers := subscribers + [Subscription(event, handler)];
    }

    method Unsubscribe(event: EventType, handler: Handler)
      modifies this
      ensures subscribers == Without(old(subscribers), Subscription(event, handler))
      ensures suites == old(suites)
    {
      subscribers := Without(subscribers, Subscription(event, handler));
    }

    /** `clear()`: forget the suites of earlier runs. */
    method Clear()
      modifies this
      ensures suites == [] && subscribers == old(subscribers)
    {
      suites := [];
    }

    /** The `add(suite)` calls the test modules make as they are loaded. */
    method AddSuites(added: seq<string>)
      modifies this
      ensures suites == old(suites) + added && subscribers == old(subscribers)
    {
      suites := suites + added;
    }
  }
}
