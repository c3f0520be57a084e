# mojito-cli-test, modelled in Dafny

The `mojito test` command runs the YUI unit tests of a Mojito application or
mojit. It finds the YUI modules on disk. It picks the test modules among
them and runs them in fresh YUI instances against the global YUITest
runner. Along the way it collects failures, per-run results, JUnit XML and
coverage, and at the end it merges them into one report and a pass/fail
verdict. This project models the core of that command and proves what it
promises:

- **Path matching and tree copying** (`lib/utils.js`): the firewall-style
  exclusion matcher, and the recursive copy and removal of directory trees.
  The trees live in an in-memory file system (`FileSystem.Fs`, a class
  whose `nodes` map stands for the synchronous `fs` calls).
- **Module discovery** (`lib/yui-module-configurator.js`): walking
  directory trees and registering every `YUI.add` call a `.js` file makes.
  Running a file is an oracle that reports its `YUI.add` calls.
- **Test module choice** (`lib/module.js`, the selection inside
  `runTests` of `test.js`, `getTestModuleNames` of `temp.js`), and the
  module configuration of a mojit under test.
- **Running and reporting** (`test.js`, and its stripped variants
  `lib/run.js` and `temp.js`):
  - the YUITest runner, a class holding `(event, handler)` subscriptions
    and the suites of the master suite;
  - a run, which is the sequence of events the runner fires;
  - the handler protocol that subscribes, tracks the suite name, collects
    failures and unsubscribes at COMPLETE;
  - the queue of app runs;
  - the JUnit envelope merge, the coverage merge, the console tally and
    the verdict.

Each step-by-step operation of the source is a `method`, proved against a
specification function of its inputs or its old state. The properties the
source promises are lemmas about those functions. Module-level collections
are a `Collector` object, and the runner is a `TestRunner` object. Their
methods state the whole new state.

Sorting (`Array.prototype.sort`) is a verified insertion sort on the
character order of strings (`Common.Sort`).

## Model

| member | source | states |
|---|---|---|
| ExclusionRules.IsExcluded | lib/utils.js:41-104 | Fails on a kind other than `file`/`dir`, then on an empty rule list. Otherwise scans the rules in list order: an invalid type or a non-RegExp pattern fails when reached, and the first rule whose pattern is found and whose type fits decides `!include`. When no rule decides the result is the default. |
| ExclusionRules.ChecksOnEveryCall | lib/utils.js:50-61 | Both argument checks happen on every call, before any rule is looked at. |
| ExclusionRules.FirstFiringRuleDecides | lib/utils.js:64-96 | The first firing rule decides, and replacing every rule after it changes nothing. |
| ExclusionRules.NoFiringRuleGivesDefault | lib/utils.js:99 | Well-formed rules none of which fires give the default. |
| ExclusionRules.MalformedRuleFailsWhenReached | lib/utils.js:81-88 | A malformed rule fails the call only if every rule before it is well formed and does not fire, and then with the error of its first defect. |
| ExclusionRules.DecisionExplained | lib/utils.js:64-99 | Every successful decision comes from a firing rule preceded only by well-formed, non-firing ones, or else it is the default. |
| ExclusionRules.BareIsExclusionShorthand | lib/utils.js:71-79 | A bare RegExp is the rule `{pattern, include: false, type: 'any'}`, and it excludes every name it is found in. |
| ExclusionRules.WellFormedNeverFails | lib/utils.js:64-99 | When every rule is well formed the scan never fails. |
| TreeCopy.CopyFile | lib/utils.js:108-115 | Fails, leaving the tree as it was, when the source is missing, is a directory, or the target cannot be written. Otherwise the target holds the source's content and nothing else changes. |
| TreeCopy.CopyUsingMatcher | lib/utils.js:126-176 | A missing or non-directory source fails with its message and changes nothing. Only `dest` and what is beneath it change. Everything created mirrors an entry the matcher kept. On success every kept entry is at the same relative path, and a kept file has the same content. A kept directory arrives as a directory, unless a file already stood at its place in `dest`. On success `dest` itself is a directory, unless it already existed as a file. An asked entry is a child of `src` or of an asked directory the matcher kept. On success the matcher answered every asked entry. With a fresh `dest` (absent, under an existing directory) the converse holds too, so the copy succeeds exactly when the matcher answers every asked entry. A matcher failure carries the error the matcher gave for some asked entry. A file-system failure means `dest` was not fresh. With an absent `dest` whose parent is not a directory, the mkdir fails and nothing changes. |
| TreeCopy.CopyEntry | lib/utils.js:160-175 | One entry of the listing is asked about by its full `src`-prefixed path and kind, then skipped, copied, or copied recursively. The copy invariants are kept: every kept entry under the names done so far is at its place, a file with its content and a directory as a directory. Nothing under the names still to come has changed. A matcher error here or below is one the matcher gave for an asked entry. A file-system error means `dest` was not fresh. With a fresh `dest`, a matcher that answers every asked entry gives no error. |
| TreeCopy.CopyChildFile | lib/utils.js:171-172 | A kept child file is copied with copyFile, which extends the copy invariants to the next entry. Into a fresh `dest` it cannot fail, and any failure is a file-system one. |
| TreeCopy.CopyChildDir | lib/utils.js:169-170 | A kept child directory is copied by the recursive call into `dest/name`. The copy invariants and the error sources carry over from that call to the enclosing listing. This includes `dest/name` ending up a directory unless a file stood there. |
| TreeCopy.CopyExclude | lib/utils.js:179-181 | The same outcome as copyUsingMatcher, with the exclusion rules and by default include. It carries every ensures of copyUsingMatcher for that matcher: the frame, the copy, the error kinds, the failing mkdir, and when and why the copy fails. |
| TreeCopy.ExcludedDirNotAsked | lib/utils.js:167-170 | Nothing beneath an excluded directory is asked about, so a matcher that would fail there cannot fail the copy. |
| TreeCopy.WellFormedRulesAnswerAll | lib/utils.js:179-181 | A non-empty list of well-formed rules answers every asked entry, so copyExclude into a fresh `dest` succeeds. |
| TreeCopy.NoRulesKeepNothing | lib/utils.js:179-181 | With no rules the matcher fails, so no entry is ever kept. |
| TreeCopy.ExcludedPrunesSubtree | lib/utils.js:167-170 | An entry a bare rule matches is not kept, and neither is anything beneath it. |
| TreeRemove.RemoveDir | lib/utils.js:199-237 | A missing `src` is left alone. A file fails with "must be a directory". A directory ends up empty, with nothing beneath it, while every entry outside it stays as it was. |
| TreeRemove.RemoveChild | lib/utils.js:223-233 | One entry: a file is unlinked, and a directory is emptied recursively and remembered for the sweep. |
| TreeRemove.EmptiedIdempotent | lib/utils.js:199-237 | A second removeDir changes nothing. |
| TreeRemove.EmptiedValid | lib/utils.js:199-237 | Emptying a directory of a well-formed tree leaves a well-formed tree. |
| ModuleDiscovery.IsExcluded | lib/yui-module-configurator.js:76-88 | True exactly when some pattern of the list matches the path. |
| ModuleDiscovery.NoPatternsExcludeNothing | lib/yui-module-configurator.js:103-105 | The default empty list excludes nothing. |
| ModuleDiscovery.UpdateModulesWithFile | lib/yui-module-configurator.js:49-73 | Only a file whose extension is `.js` runs. Each of its `YUI.add` calls, in order, sets the entry of its name to the running file's path and `meta.requires` or `[]`. |
| ModuleDiscovery.RegisterEntry | lib/yui-module-configurator.js:56-65 | The last call for a name decides its entry. A name no call mentions keeps its entry, or stays absent. |
| ModuleDiscovery.ThrowIsSwallowed | lib/yui-module-configurator.js:67-71 | A file that throws after its calls leaves the same registry as one that does not. |
| ModuleDiscovery.ApplyFilesEntry | lib/yui-module-configurator.js:35-45 | Across files, the last file that registers a name decides its entry, and that entry names that file. |
| ModuleDiscovery.WalkDir | lib/yui-module-configurator.js:28-46 | A missing root or a file fails. A directory gives the registry updated by every visited file, in walk order. |
| ModuleDiscovery.VisitedSound | lib/yui-module-configurator.js:35-44 | Every visited file lies below the root with nothing on its way down excluded: the check comes before `stat`, so excluded subtrees are never read. |
| ModuleDiscovery.VisitedComplete | lib/yui-module-configurator.js:35-44 | Every file below the root with nothing on its way down excluded is visited. |
| ModuleDiscovery.ConfigureModules | lib/yui-module-configurator.js:98-120 | Undefined `dir` gives `{}`. A missing `excludes` becomes `[]` and a single directory becomes a one-element list. The roots are walked in order into one registry, and the first failing root fails the call. |
| ModuleDiscovery.WalkRootsFails | lib/yui-module-configurator.js:115-117 | Once a root fails, the whole call fails with that root's error. |
| ModuleDiscovery.OneRootIsList | lib/yui-module-configurator.js:111-113 | A single directory behaves as the one-element array. |
| ModuleDiscovery.LaterRootWins | lib/yui-module-configurator.js:115-117 | A name registered under the last root takes its entry from there, whatever earlier roots registered. |
| MojitModules.FilterNames | lib/module.js:72-91 | The base pair plus the chosen keys in key order, sorted. A key is chosen by `/-tests?$/` when the list is empty, else when the list holds it, or it with `-tests` or `-test` appended. |
| MojitModules.FilteredNamesCounts | lib/module.js:73-90 | The result is sorted, holds each base module once, and holds each chosen key once more. |
| MojitModules.BasePairKept | lib/module.js:73 | `mojito` and `mojito-test` are always in the result. |
| MojitModules.FilteredNamesLength | lib/module.js:72-91 | The length is 2 plus the number of chosen keys. |
| MojitModules.MojitoTestTwice | lib/module.js:73-79 | A modlist key `mojito-test` appears twice in regex mode. |
| MojitModules.OverlayConfigs | lib/module.js:48-50 | Every source key overwrites the test configuration, and keys only the tests have are kept. |
| MojitModules.MojitConfigEntries | lib/module.js:44-59 | The source entry wins for its name, and a test-only name keeps its entry. `mojito-test` (requiring `mojito`) and `mojito` (no requires) are set last, whatever was discovered for them. |
| MojitModules.MojitConfigs | lib/module.js:43-66 | A discovery error propagates, otherwise the result is the merged configuration. The second walk skips the test pattern. |
| TestSelection.SelectTestModules | test.js:503-526 | Runs the nested push loops. An empty push list gives the error `No <type> tests found`, and otherwise the pushed names come out sorted. |
| TestSelection.HitsAreOccurrences | test.js:505-511 | With `--testname` entries, a name is pushed once per entry equal to it, plus once per entry equal to it without its `-tests` suffix. |
| TestSelection.PicksCount | test.js:503-516 | Each configured name is pushed as often as the selection says, and nothing else is pushed. Without entries that is once for `/-tests$/` names and never for others. |
| TestSelection.SelectionFails | test.js:518-521 | The selection fails exactly when no name is pushed, with the message `No <type> tests found`. |
| TestSelection.SelectionCount | test.js:525-526 | A successful selection is sorted and holds each name as often as it was pushed. |
| TestSelection.SameOrderOnAnyMachine | test.js:525-526 | The order of the configured keys does not change the selection. |
| TestSelection.TargetTwice | test.js:506-510 | Naming a module twice with `--testname` makes it run twice. |
| TestSelection.MojitTestConfigs | test.js:469-486 | The inline mojit merge: discovery errors propagate, the second walk skips `/-tests.js$/`, and the result is the merged configuration. |
| Common.Sort | test.js:526 | The result is sorted and a permutation of the input. |
| YuiTestEngine.DetachAllAppended | test.js:338-360 | Unsubscribing the four subscriptions made by a handler that was not subscribed before restores the subscriptions exactly. |
| YuiTestEngine.DetachAllMultiset | lib/run.js:146-159 | Unsubscribing subscriptions that are all present removes one copy of each, wherever they are. |
| TestRun.Collector.constructor | test.js:50-53 | The four collections start empty. |
| TestRun.Collector.CollectFailure | test.js:67-75 | Appends one record of the suite name and the event's case, test, message and stack; nothing else changes. |
| TestRun.Collector.CollectRunResults | test.js:84-99 | Appends the results and the run's JUnit XML. With coverage on, each file of the run's coverage overwrites the collected one, and the other files keep theirs. |
| TestRun.FirstComplete | test.js:337-342 | The position of the first COMPLETE, with no COMPLETE before it, or the number of events. |
| TestRun.UseArgs | test.js:364 | The arguments of `use`: the modules in order, then testRunner last. |
| TestRun.HandleEvent | test.js:323-353 | TEST_SUITE_BEGIN sets the suite name, and TEST_FAIL appends a failure under the current name. COMPLETE unsubscribes the four, collects the results, then continues to `cb` or produces processResults' report. |
| TestRun.SubscribedTypes | test.js:357-360 | A freshly subscribed handler hears all four event types. |
| TestRun.FireEvent | test.js:323-353 | One event of the run keeps the run invariant: events up to COMPLETE are handled, and after it the handler is gone. |
| TestRun.TestRunnerCallback | test.js:355-362 | After the run the collections hold the failures up to the first COMPLETE and that COMPLETE's results. If the run completed, the subscriptions are as before and the outcome is set. Otherwise the four stay subscribed. |
| TestRun.ExecuteTestsWithinY | test.js:318-379 | testRunner is appended last. The runner is cleared before the modules load, so it holds exactly the new suites. Then the run goes as above. |
| TestRun.ExecTestQueueInY | test.js:381-387 | Runs a prefix of the queue in pop order, with every run but the last completed. The runner's suites are the last run's. When the last run completes, the whole queue has run, the subscriptions are restored and the report is made once. When it does not complete, its four handleEvent subscriptions stay, and its session number is the first plus the runs before it. |
| TestRun.RunSelected | test.js:503-532 | An empty selection reports `No <type> tests found`. It collects nothing and changes neither the suites nor the subscriptions. An app runs the sorted names through the queue, in reverse order. The suites, the collections and the subscriptions are those of the queue's runs, with the report made when its last run completes. A mojit runs all its names together once, with the first session. The suites are theirs, and each collection adds the run's events. COMPLETE restores the subscriptions and produces the report, or the four subscriptions stay when no COMPLETE arrives. |
| TestRun.FailuresRecorded | test.js:329-335 | One failure record per TEST_FAIL, in order, each under the name of the latest TEST_SUITE_BEGIN before it. |
| TestRun.FailuresCounted | test.js:333-335 | There are as many records as TEST_FAIL events. |
| TestRun.NameIsLatestSuite | test.js:329-331 | The suite name is that of the latest TEST_SUITE_BEGIN, or `''` before any. |
| TestRun.EventsAfterCompleteIgnored | test.js:337-342 | Events after COMPLETE change nothing. |
| TestRun.CoverageOverwrites | test.js:91-97 | A completed run's coverage replaces that of its files, and the other files keep theirs. |
| TestRun.OneResultPerRun | test.js:381-387 | When every queued run completes, each leaves one results entry in run order, keeping the earlier ones. |
| TestRun.PopOrderIsPermutation | test.js:382 | The pop order runs each name once, and a sorted queue runs from the greatest name down. |
| TestReport.UnwrapItem | test.js:264-269 | Strips the anchored header when present, then the anchored footer when present. |
| TestReport.MergeJUnitXml | test.js:262-272 | The header, each item unwrapped in collection order, then the footer. |
| TestReport.UnwrapWrap | test.js:265-269 | Unwrapping undoes the formatter's envelope. |
| TestReport.MergeOfWrapped | test.js:262-272 | The documents `wrap(b1) … wrap(bn)` merge into `wrap(b1 + … + bn)`. |
| TestReport.PrintTestResults | test.js:150-171 | Adds one test to the counters. It counts as deferred when the result is `ignore` or the name matches `/^(todo|skip|ignore)\b/i` (checked first), else passed on `pass`, else failed. |
| TestReport.PrintTestCaseResults | test.js:173-182 | Adds the tally of a test case's tests. |
| TestReport.PrintTestSuiteResults | test.js:184-202 | Adds the tally of every test case in the suite and, recursively, in its nested suites. Other objects are skipped. |
| TestReport.ConsoleTestReport | test.js:127-206 | The counters equal the tally of all tests of all runs. |
| TestReport.TallyAppend | test.js:204-206 | Counting over two lists of tests is the sum of the counts. |
| TestReport.TallyAddsUp | test.js:150-167 | Every test counts exactly once, so the three counts add up to the total. |
| TestReport.TallyOne | test.js:150-167 | A single test counts once, under its outcome. |
| TestReport.DeferredNeverFails | test.js:153-156 | A test ignored or with a deferred name counts as deferred, never as failed. |
| TestReport.ProcessResults | test.js:255-316 | The merged XML and the counters, plus the coverage when coverage is on. Then the callback of `exit(failures)`, or `Failed processing coverage report` when the coverage report fails. |
| TestReport.Verdict | test.js:278-315 | The callback has no error exactly when no failure was collected and the coverage report did not fail. It then passes `Passed.` and the process exits. Otherwise it gets `Failed.`, unless the coverage report failed. |
| LibRun.CollectRunResults | lib/run.js:29-35 | Returns before collecting. The collections are unchanged. |
| LibRun.ProcessResults | lib/run.js:62-65 | Returns before merging or reporting. The collections are unchanged. |
| LibRun.SameFailuresAsTestJs | lib/run.js:124-153 | A run collects the same failures as test.js does for the same events, and no results, XML or coverage. |
| LibRun.OnCompleteHandler | lib/run.js:145-153 | Unsubscribes preProcessor, onbegin, onfail and oncomplete, collects nothing, then ends in `cb` or in processResults. |
| LibRun.Deliver | lib/run.js:127-153 | preProcessor does nothing. onbegin sets the suite name, onfail appends a failure under it, and oncomplete ends the run. |
| LibRun.FireEvent | lib/run.js:155-160 | One event keeps the run invariant. After COMPLETE only a left-over preProcessor can still hear an event, and it changes nothing. |
| LibRun.TestRunnerCallback | lib/run.js:155-161 | Only the failures up to COMPLETE are collected. A completed run leaves the subscriptions as before, counted with repetition. They are the same sequence unless a preProcessor subscription was already there. |
| LibRun.ExecuteTestsWithinY | lib/run.js:124-172 | testRunner is appended last and `T` is cleared before the modules load. The run then goes as above. |
| LibRun.DetachedAgain | lib/run.js:146-159 | Unsubscribing the four subscriptions made leaves what was there before. |
| LibRun.NoneRemain | lib/run.js:146-149 | After a completed run none of its closures is subscribed, and every other subscription still is. |
| TempScript.GetTestModuleNames | temp.js:54-69 | The base pair plus every key matching `/-tests$/`, sorted. The whitelist is ignored. |
| TempScript.TestModuleNamesCount | temp.js:55-62 | The result is sorted, holds each base module once, and holds each `-tests` key once more. |
| TempScript.OnlyBasePair | temp.js:62-68 | With no `-tests` key the result is `['mojito', 'mojito-test']`. |
| TempScript.AgreesWithOtherSelections | temp.js:54-62 | Besides the base pair, the same names as test.js's selection without `--testname`. It differs from filterNames only on names ending in `-test`. |
| TempScript.HandleEvent | temp.js:121-152 | The handler of test.js, except that COMPLETE collects nothing and ends in `cb` or in printing `done`. |
| TempScript.FireEvent | temp.js:154-160 | One event of the run keeps the run invariant. |
| TempScript.TestRunnerCallback | temp.js:154-161 | Only the failures up to COMPLETE are collected. A completed run restores the subscriptions exactly. |
| TempScript.ExecuteTestsWithinY | temp.js:116-178 | testRunner is appended last, the runner is cleared before the modules load, and the run goes as above. |

## Left out

- File system: `fs` is an in-memory tree. Permissions, the `755` mode, symbolic links, and entries that are neither files nor directories are not modelled. Directory listings come in the order the tree stores them.
- RegExp: patterns are abstract values with a match function. The regular-expression engine is not modelled. `BeginsWithWord` spells out `/^(todo|skip|ignore)\b/i` for ASCII letters only.
- Sorting compares strings character by character, not by UTF-16 code units.
- Running a module file in the shared `vm` context is an oracle. It reports the `YUI.add` calls the file made and whether it then threw. The catch at lib/yui-module-configurator.js:69-71 passes the throw to `utils.error`, which only builds an Error value and returns it (lib/utils.js:259-263). The caller drops that value, so the throw has no effect beyond ending the file's registrations, and the model builds no value for it.
- Discovery: a file's `YUI.add` calls are taken to depend only on its own content and path. The source runs every file in one shared `vm` context (lib/yui-module-configurator.js:19-26, 68), so a file can also see the globals that files run before it left behind. The model does not capture that.
- TreeCopy.CopyUsingMatcher: requires the source and the destination not to contain each other. The frame (only `dest` and what is beneath it change) and the termination measure (the number of entries below `src`) both rely on it. A destination nested in the source is not always endless in the source. A `dest` exactly one level below `src` that does not exist yet ends, because `src` is listed (lib/utils.js:151) before `dest` is created (lib/utils.js:156-158). `--tmpdir <app dir>` reaches that case (test.js:547, 596-597, 411, 435). The model excludes it together with the nested cases that do not end.
- TreeCopy.CopyUsingMatcher: a file-system failure is not traced to the mkdir or write that failed. The contract says only that such a failure cannot happen with a fresh `dest`. With an existing `dest`, a clash with what is already there can make a write fail.
- TreeCopy.CopyFile: file contents are modelled as decoded text, the same value before and after the copy. copyFile reads and writes with the `utf-8` encoding (lib/utils.js:109-111), so a file that is not valid UTF-8, such as a binary asset the test copy takes along, is altered by the source. The model does not capture that.
- TreeCopy.CopyFile: the optional callback is not modelled, because it only runs after the write.
- `copy`, `makeDir`, `findInPaths` and the logging helpers of `lib/utils.js` are not part of this model, because the core does not rely on them.
- The `exists` calls of copyUsingMatcher and removeDir (lib/utils.js:139, 156, 208) are modelled as `p in fs.nodes`. At run time `exists` is `fs.existsSync` (lib/utils.js:13), because that assignment replaces the hoisted function declaration at lib/utils.js:266-273. That declared helper is therefore never called, and it is the only part left out.
- The YUI loader, the Store, `YUI.applyConfig` and `configureYUI` are left out. The configured module names of an app are a parameter (`keys`). The suites a YUI instance adds when it loads modules are a parameter (`load`). The events the runner fires for its suites are a parameter (`script`).
- The full paths of the base modules, built with `libpath.join`, are parameters.
- The runner here delivers each event to the current run's handlers only. Handlers left behind by an earlier run that never completed are not invoked.
- The next queued run starts from inside the COMPLETE handler in the source. Here it starts after that handler returns, which is indistinguishable for the collections.
- TestRun.ExecTestQueueInY: requires a non-empty queue. runTests calls it only after a successful selection.
- The caller's `tests` array is returned with testRunner appended (`used`), not mutated in place.
- JSON parsing of the coverage text: the coverage of a COMPLETE event is already a map. test.js's unguarded `JSON.parse` error is not modelled.
- The preProcessor's directory wiping, the writing of the results, coverage and XML files, instrumentDirectory, and the Java coverage instrumentation and report generator are left out. The generator's outcome is the parameter `coverageReportFails`.
- `process.exit` is the `exitsProcess` flag of the report. Printing, colours, the failure details and the floating-point pass percentage are not modelled.
- `main`'s argument parsing and defaulting, usage text and option tables are not modelled.
- The top-level statements of `temp.js` are not modelled, because they use hard-coded absolute paths.
- The code after the early returns in `lib/run.js` and `temp.js` is not modelled, because it is unreachable.
- Node's single event loop is assumed: nothing runs concurrently.
