/**
 * test.js, after the runs: merging the JUnit XML documents of the runs into
 * one, counting the reported tests as passed, failed or deferred, and the
 * verdict handed to the command's callback.
 */
module TestReport {
  import opened Common
  import opened YuiTestEngine

  /** One entry of collectedFailures. */
  datatype FailureRecord = FailureRecord(suiteName: string, caseName: string, testName: string,
                                         message: string, stack: string)

  // ---------------------------------------------------------------------------
  // Merging the JUnit XML of the runs

  const JUnitHeader: string := "<?xml version=\"1.0\" encoding=\"UTF-8\"?><testsuites>"
  const JUnitFooter: string := "</testsuites>"

  /** One run's document, as the JUnit formatter writes it. */
  function Wrap(body: string): (r: string) {
    JUnitHeader + body + JUnitFooter
  }

  /** The item with the anchored header, then the anchored footer, replaced by
      nothing; each is left alone where it is not there. */
  function Unwrapped(item: string): (r: string) {
    var headless := if StartsWith(item, JUnitHeader) then item[|JUnitHeader|..] else item;
    if EndsWith(headless, JUnitFooter) then headless[..|headless| - |JUnitFooter|] else headless
  }

  function Bodies(items: seq<string>): (r: string)
    decreases |items|
  {
    if items == [] then ""
    else Bodies(items[..|items| - 1]) + Unwrapped(items[|items| - 1])
  }

  /** The document processResults writes to the results file. */
  function MergedJUnitXml(items: seq<string>): (r: string) {
    JUnitHeader + Bodies(items) + JUnitFooter
  }

  /** One item with the run's envelope replaced by nothing. */
  method UnwrapItem(item: string) returns (r: string)
    ensures r == Unwrapped(item)
  {
    r := item;
    if StartsWith(r, JUnitHeader) {
      r := r[|JUnitHeader|..];
    }
    if EndsWith(r, JUnitFooter) {
      r := r[..|r| - |JUnitFooter|];
    }
  }

  method MergeJUnitXml(collectedJUnitXml: seq<string>) returns (merged: string)
    ensures merged == MergedJUnitXml(collectedJUnitXml)
  {
    merged := JUnitHeader;
    var i := 0;
    while i < |collectedJUnitXml|
      invariant 0 <= i <= |collectedJUnitXml|
      invariant merged == JUnitHeader + Bodies(collectedJUnitXml[..i])
    {
      BodiesStep(collectedJUnitXml, i);
      var item := UnwrapItem(collectedJUnitXml[i]);
      merged := merged + item;
      i := i + 1;
    }
    TakeAll(collectedJUnitXml, i);
    merged := merged + JUnitFooter;
  }

  lemma BodiesStep(items: seq<string>, i: nat)
    requires i < |items|
    ensures Bodies(items[..i + 1]) == Bodies(items[..i]) + Unwrapped(items[i])
  {
    assert items[..i + 1][..i] == items[..i];
  }

  /** Unwrapping undoes the formatter's envelope. */
  lemma UnwrapWrap(body: string)
    ensures Unwrapped(Wrap(body)) == body
  {
    var w := Wrap(body);
    assert w[..|JUnitHeader|] == JUnitHeader;
    var headless := w[|JUnitHeader|..];
    assert headless == body + JUnitFooter;
    assert headless[|headless| - |JUnitFooter|..] == JUnitFooter;
    assert headless[..|headless| - |JUnitFooter|] == body;
  }

  function Concat(bodies: seq<string>): (r: string)
    decreases |bodies|
  {
    if bodies == [] then "" else Concat(bodies[..|bodies| - 1]) + bodies[|bodies| - 1]
  }

  function WrapAll(bodies: seq<string>): (r: seq<string>)
    ensures |r| == |bodies|
    ensures forall i :: 0 <= i < |bodies| ==> r[i] == Wrap(bodies[i])
  {
    seq(|bodies|, i requires 0 <= i < |bodies| => Wrap(bodies[i]))
  }

  /** The merged document of well-formed runs is one document holding the
      runs' suites, in run order. */
  lemma {:induction false} MergeOfWrapped(bodies: seq<string>)
    ensures MergedJUnitXml(WrapAll(bodies)) == Wrap(Concat(bodies))
    ensures Bodies(WrapAll(bodies)) == Concat(bodies)
    decreases |bodies|
  {
    if bodies != [] {
      var front := bodies[..|bodies| - 1];
      MergeOfWrapped(front);
      var w := WrapAll(bodies);
      assert w[..|w| - 1] == WrapAll(front);
      UnwrapWrap(bodies[|bodies| - 1]);
    }
  }

  // ---------------------------------------------------------------------------
  // The console tally

  datatype Outcome = Passed | FailedTest | Deferred

  predicate IsWordChar(c: char) {
    ('a' <= c <= 'z') || ('A' <= c <= 'Z') || ('0' <= c <= '9') || c == '_'
  }

  function Lower(c: char): (r: char) {
    if 'A' <= c <= 'Z' then (c as int + 32) as char else c
  }

  /** `name` begins with the lower-case word `w`, in any letter case, and a
      word boundary follows it. */
  predicate BeginsWithWord(name: string, w: string) {
    |w| <= |name|
    && (forall i :: 0 <= i < |w| ==> Lower(name[i]) == w[i])
    && (|name| == |w| || !IsWordChar(name[|w|]))
  }

  /** `name.match(RX_DEFER)`, with RX_DEFER the expression `/^(todo|skip|ignore)\b/i`. */
  predicate IsDeferredName(name: string) {
    BeginsWithWord(name, "todo") || BeginsWithWord(name, "skip") || BeginsWithWord(name, "ignore")
  }

  /** How printTestResults counts one test. */
  function Classify(t: TestResult): (r: Outcome) {
    if t.result == "ignore" || IsDeferredName(t.name) then Deferred
    else if t.result == "pass" then Passed
    else FailedTest
  }

  datatype Counts = Counts(passed: nat, failed: nat, deferred: nat, total: nat)

  const NoCounts := Counts(0, 0, 0, 0)

  function Plus(a: Counts, b: Counts): (r: Counts) {
    Counts(a.passed + b.passed, a.failed + b.failed, a.deferred + b.deferred, a.total + b.total)
  }

  function CountOf(tests: seq<TestResult>, o: Outcome): (r: nat)
    decreases |tests|
  {
    if tests == [] then 0
    else CountOf(tests[..|tests| - 1], o) + (if Classify(tests[|tests| - 1]) == o then 1 else 0)
  }

  /** The counters after seeing `tests`, as a reference definition. */
  function Tally(tests: seq<TestResult>): (r: Counts) {
    Counts(CountOf(tests, Passed), CountOf(tests, FailedTest), CountOf(tests, Deferred), |tests|)
  }

  /** The tests of a suite, in property order, through nested suites. */
  function TestsOfSuite(s: Suite): (r: seq<TestResult>)
    decreases s, |s.items| + 1
  {
    TestsOfItems(s, |s.items|)
  }

  /** The tests of the first `n` items of `s`. */
  function TestsOfItems(s: Suite, n: nat): (r: seq<TestResult>)
    requires n <= |s.items|
    decreases s, n
  {
    if n == 0 then []
    else
      var item := s.items[n - 1];
      TestsOfItems(s, n - 1)
      + match item
        case TestCase(_, tests) => tests
        case TestSuite(inner) => TestsOfSuite(inner)
        case OtherObject => []
  }

  function TestsOfRuns(results: seq<Suite>): (r: seq<TestResult>)
    decreases |results|
  {
    if results == [] then []
    else TestsOfRuns(results[..|results| - 1]) + TestsOfSuite(results[|results| - 1])
  }

  lemma {:induction false} CountOfAppend(a: seq<TestResult>, b: seq<TestResult>, o: Outcome)
    ensures CountOf(a + b, o) == CountOf(a, o) + CountOf(b, o)
    decreases |b|
  {
    if b == [] {
      assert a + b == a;
    } else {
      var front := b[..|b| - 1];
      CountOfAppend(a, front, o);
      assert (a + b)[..|a + b| - 1] == a + front;
    }
  }

  /** Counting is additive. */
  lemma TallyAppend(a: seq<TestResult>, b: seq<TestResult>)
    ensures Tally(a + b) == Plus(Tally(a), Tally(b))
  {
    CountOfAppend(a, b, Passed);
    CountOfAppend(a, b, FailedTest);
    CountOfAppend(a, b, Deferred);
  }

  /** Every test is counted exactly once: as passed, failed or deferred. */
  lemma {:induction false} TallyAddsUp(tests: seq<TestResult>)
    ensures Tally(tests).passed + Tally(tests).failed + Tally(tests).deferred == Tally(tests).total
    decreases |tests|
  {
    if tests != [] {
      TallyAddsUp(tests[..|tests| - 1]);
    }
  }

  /** A single test counts once, under its outcome. */
  lemma TallyOne(t: TestResult)
    ensures Tally([t]) == match Classify(t)
      case Passed => Counts(1, 0, 0, 1)
      case FailedTest => Counts(0, 1, 0, 1)
      case Deferred => Counts(0, 0, 1, 1)
  {
    assert [t][..|[t]| - 1] == [];
    assert CountOf([], Passed) == 0 && CountOf([], FailedTest) == 0 && CountOf([], Deferred) == 0;
  }

  /** An ignored or deferred-named test never counts as failed, whatever
      its result. */
  lemma DeferredNeverFails(t: TestResult)
    requires t.result == "ignore" || IsDeferredName(t.name)
    ensures Tally([t]) == Counts(0, 0, 1, 1)
  {
    TallyOne(t);
  }

  /** printTestResults. */
  method PrintTestResults(test: TestResult, c: Counts) returns (d: Counts)
    ensures d == Plus(c, Tally([test]))
  {
    TallyOne(test);
    d := c.(total := c.total + 1);
    if test.result == "ignore" || IsDeferredName(test.name) {
      d := d.(deferred := d.deferred + 1);
    } else if test.result == "pass" {
      d := d.(passed := d.passed + 1);
    } else {
      d := d.(failed := d.failed + 1);
    }
  }

  /** printTestCaseResults: every object property of a test case is a test. */
  method PrintTestCaseResults(tests: seq<TestResult>, c: Counts) returns (d: Counts)
    ensures d == Plus(c, Tally(tests))
  {
    d := c;
    var i := 0;
    while i < |tests|
      invariant 0 <= i <= |tests|
      invariant d == Plus(c, Tally(tests[..i]))
    {
      TakeNext(tests, i);
      TallyAppend(tests[..i], [tests[i]]);
      d := PrintTestResults(tests[i], d);
      i := i + 1;
    }
    TakeAll(tests, i);
  }

  /** printTestSuiteResults: test cases are counted, nested suites are
      entered, other objects are passed over. */
  method PrintTestSuiteResults(suite: Suite, c: Counts) returns (d: Counts)
    ensures d == Plus(c, Tally(TestsOfSuite(suite)))
    decreases suite
  {
    d := c;
    var i := 0;
    while i < |suite.items|
      invariant 0 <= i <= |suite.items|
      invariant d == Plus(c, Tally(TestsOfItems(suite, i)))
    {
      var item := suite.items[i];
      match item {
        case TestCase(_, tests) =>
          assert TestsOfItems(suite, i + 1) == TestsOfItems(suite, i) + tests;
          TallyAppend(TestsOfItems(suite, i), tests);
          d := PrintTestCaseResults(tests, d);
        case TestSuite(inner) =>
          assert TestsOfItems(suite, i + 1) == TestsOfItems(suite, i) + TestsOfSuite(inner);
          TallyAppend(TestsOfItems(suite, i), TestsOfSuite(inner));
          d := PrintTestSuiteResults(inner, d);
        case OtherObject =>
          assert TestsOfItems(suite, i + 1) == TestsOfItems(suite, i);
      }
      i := i + 1;
    }
  }

  /** consoleTestReport's counters over the results of all runs. The
      printed lines and the pass rate are not modelled. */
  method ConsoleTestReport(results: seq<Suite>) returns (counts: Counts)
    ensures counts == Tally(TestsOfRuns(results))
  {
    counts := NoCounts;
    var r := 0;
    while r < |results|
      invariant 0 <= r <= |results|
      invariant counts == Tally(TestsOfRuns(results[..r]))
    {
      TakeNext(results, r);
      TallyAppend(TestsOfRuns(results[..r]), TestsOfSuite(results[r]));
      counts := PrintTestSuiteResults(results[r], counts);
      r := r + 1;
    }
    TakeAll(results, r);
  }

  // ---------------------------------------------------------------------------
  // The verdict

  /** The arguments the command's callback receives. */
  datatype CallbackArgs = CallbackArgs(err: Option<string>, value: Option<string>)

  /** processResults' `exit(code)`. */
  function Exit(code: nat): (r: CallbackArgs) {
    if code != 0 then CallbackArgs(Some("Failed."), None) else CallbackArgs(None, Some("Passed."))
  }

  /** What processResults produces: the merged document for the results
      file, the console counters, the coverage written to the coverage file
      when coverage is on, the callback's arguments, and whether the process
      then exits. `coverageReportFails` is the outcome of the report
      generator the command runs. */
  datatype Report = Report(junitXml: string, tally: Counts, coverageJson: Option<map<string, string>>,
                           callback: CallbackArgs, exitsProcess: bool)

  function ReportOf(failures: seq<FailureRecord>, results: seq<Suite>, junit: seq<string>,
                    coverage: map<string, string>, coverageOn: bool, coverageReportFails: bool): (r: Report)
  {
    var xml := MergedJUnitXml(junit);
    var tally := Tally(TestsOfRuns(results));
    if !coverageOn then
      Report(xml, tally, None, Exit(|failures|), |failures| == 0)
    else if coverageReportFails then
      Report(xml, tally, Some(coverage), CallbackArgs(Some("Failed processing coverage report"), None), false)
    else
      Report(xml, tally, Some(coverage), Exit(|failures|), |failures| == 0)
  }

  method ProcessResults(failures: seq<FailureRecord>, results: seq<Suite>, junit: seq<string>,
                        coverage: map<string, string>, coverageOn: bool, coverageReportFails: bool)
    returns (report: Report)
    ensures report == ReportOf(failures, results, junit, coverage, coverageOn, coverageReportFails)
  {
    var merged := MergeJUnitXml(junit);
    var tally := ConsoleTestReport(results);
    if coverageOn {
      if coverageReportFails {
        report := Report(merged, tally, Some(coverage), CallbackArgs(Some("Failed processing coverage report"), None), false);
      } else {
        report := Report(merged, tally, Some(coverage), Exit(|failures|), |failures| == 0);
      }
    } else {
      report := Report(merged, tally, None, Exit(|failures|), |failures| == 0);
    }
  }

  /** The command fails exactly when a failure was collected (or the coverage
      report could not be made); it passes, and the process exits, otherwise.
      The console counters play no part in it. */
  lemma Verdict(failures: seq<FailureRecord>, results: seq<Suite>, junit: seq<string>,
                coverage: map<string, string>, coverageOn: bool, coverageReportFails: bool)
    ensures var r := ReportOf(failures, results, junit, coverage, coverageOn, coverageReportFails);
      && (r.callback.err.None? <==> |failures| == 0 && !(coverageOn && coverageReportFails))
      && (r.callback.err == Some("Failed.") <==> |failures| > 0 && !(coverageOn && coverageReportFails))
      && (r.callback.err.None? ==> r.callback.value == Some("Passed.") && r.exitsProcess)
      && (r.coverageJson.Some? <==> coverageOn)
  {
  }
}
