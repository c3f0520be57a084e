/**
 * lib/module.js: choosing the test modules to run (filterNames) and building
 * the module configuration of a mojit under test (the map merge of
 * mojitConfigs).
 */
module MojitModules {
  import opened Common
  import opened FileSystem
  import opened ModuleDiscovery

  /** The base modules every test run includes. */
  const TestWith: seq<string> := ["mojito", "mojito-test"]

  /** `name.match(/-tests?$/)`. */
  predicate IsTestName(name: string) {
    EndsWith(name, "-test") || EndsWith(name, "-tests")
  }

  /** Whether filterNames keeps the modlist key `name`: by the regular
      expression when `list` is empty, else when `list` names it, directly or
      with a `-tests` or `-test` suffix. */
  predicate Chosen(list: seq<string>, name: string) {
    if |list| == 0 then IsTestName(name)
    else name in list || name + "-tests" in list || name + "-test" in list
  }

  /** The keys that are chosen, in key order. */
  function Selected(keys: seq<string>, list: seq<string>): (r: seq<string>)
    decreases |keys|
  {
    if keys == [] then []
    else
      var front := Selected(keys[..|keys| - 1], list);
      var k := keys[|keys| - 1];
      if Chosen(list, k) then front + [k] else front
  }

  /** What filterNames(modlist, list) returns for a modlist with keys `keys`. */
  function FilteredNames(keys: seq<string>, list: seq<string>): (r: seq<string>) {
    Sort(TestWith + Selected(keys, list))
  }

  /** filterNames: push every chosen key after the base pair, then sort. */
  method FilterNames(keys: seq<string>, list: seq<string>) returns (names: seq<string>)
    ensures names == FilteredNames(keys, list)
  {
    names := TestWith;
    var i := 0;
    while i < |keys|
      invariant 0 <= i <= |keys|
      invariant names == TestWith + Selected(keys[..i], list)
    {
      TakeNext(keys, i);
      if Chosen(list, keys[i]) {
        names := names + [keys[i]];
      }
      i := i + 1;
    }
    TakeAll(keys, i);
    names := Sort(names);
  }

  /** A key is selected once if it is chosen, never otherwise. */
  lemma {:induction false} SelectedCount(keys: seq<string>, list: seq<string>, x: string)
    requires Distinct(keys)
    ensures multiset(Selected(keys, list))[x] == if x in keys && Chosen(list, x) then 1 else 0
    decreases |keys|
  {
    if keys != [] {
      var front := keys[..|keys| - 1];
      assert Distinct(front);
      SelectedCount(front, list, x);
      assert forall y :: y in keys <==> y in front || y == keys[|keys| - 1];
      assert keys[|keys| - 1] !in front;
    }
  }

  /** The result is sorted, holds the base pair, and holds each chosen key
      once more: no deduplication against the base pair. */
  lemma FilteredNamesCounts(keys: seq<string>, list: seq<string>, x: string)
    requires Distinct(keys)
    ensures Sorted(FilteredNames(keys, list))
    ensures multiset(FilteredNames(keys, list))[x]
         == (if x == "mojito" || x == "mojito-test" then 1 else 0) + (if x in keys && Chosen(list, x) then 1 else 0)
  {
    SelectedCount(keys, list, x);
    assert multiset(TestWith + Selected(keys, list)) == multiset(TestWith) + multiset(Selected(keys, list));
  }

  /** The base pair is always in the result. */
  lemma BasePairKept(keys: seq<string>, list: seq<string>)
    ensures "mojito" in FilteredNames(keys, list) && "mojito-test" in FilteredNames(keys, list)
  {
    var all := TestWith + Selected(keys, list);
    assert all[0] == "mojito" && all[1] == "mojito-test";
    assert "mojito" in multiset(FilteredNames(keys, list));
    assert "mojito-test" in multiset(FilteredNames(keys, list));
  }

  /** Its length is two plus the number of chosen keys. */
  lemma {:induction false} FilteredNamesLength(keys: seq<string>, list: seq<string>)
    ensures |FilteredNames(keys, list)| == 2 + |Selected(keys, list)|
    ensures |Selected(keys, list)| <= |keys|
    decreases |keys|
  {
    if keys != [] {
      FilteredNamesLength(keys[..|keys| - 1], list);
    }
  }

  /** A modlist key `mojito-test` shows up twice when `list` is empty. */
  lemma MojitoTestTwice(keys: seq<string>)
    requires Distinct(keys) && "mojito-test" in keys
    ensures multiset(FilteredNames(keys, []))["mojito-test"] == 2
  {
    assert EndsWith("mojito-test", "-test");
    FilteredNamesCounts(keys, [], "mojito-test");
  }

  // ---------------------------------------------------------------------------
  // mojitConfigs(path, testPath, libpath, YUI)

  /** One entry of the configuration handed to YUI: `requires` is absent for
      the `mojito` entry. */
  datatype Config = Config(fullpath: string, required: Option<seq<string>>)

  function AsConfig(r: ModuleRecord): (res: Config) {
    Config(r.fullpath, Some(r.required))
  }

  function AsConfigs(m: Modules): (r: map<string, Config>) {
    map k | k in m :: AsConfig(m[k])
  }

  /** `testConfigs` once every key of `sourceConfigs` has overwritten it. */
  function Overlay(testConfigs: map<string, Config>, sourceConfigs: map<string, Config>): (r: map<string, Config>)
  {
    map k | k in testConfigs.Keys + sourceConfigs.Keys ::
      if k in sourceConfigs then sourceConfigs[k] else testConfigs[k]
  }

  lemma OverlayByKeys(t: map<string, Config>, s: map<string, Config>, r: map<string, Config>)
    requires forall k :: k in r <==> k in t || k in s
    requires forall k :: k in r ==> r[k] == if k in s then s[k] else t[k]
    ensures r == Overlay(t, s)
  {
  }

  /** The `for (k in sourceConfigs)` loop: every key of `sourceConfigs`
      overwrites `testConfigs`. */
  method OverlayConfigs(testConfigs: map<string, Config>, sourceConfigs: map<string, Config>)
    returns (r: map<string, Config>)
    ensures r == Overlay(testConfigs, sourceConfigs)
  {
    r := testConfigs;
    var pending := sourceConfigs.Keys;
    while pending != {}
      invariant pending <= sourceConfigs.Keys
      invariant forall k :: k in r <==> k in testConfigs || (k in sourceConfigs && k !in pending)
      invariant forall k :: k in r ==>
                  r[k] == if k in sourceConfigs && k !in pending then sourceConfigs[k] else testConfigs[k]
      decreases |pending|
    {
      var k :| k in pending;
      r := r[k := sourceConfigs[k]];
      pending := pending - {k};
    }
    OverlayByKeys(testConfigs, sourceConfigs, r);
  }

  /** The configuration mojitConfigs returns from the two discovered registries. */
  function MojitConfig(tests: Modules, sources: Modules, mojitoTestPath: string, mojitoPath: string)
    : (r: map<string, Config>)
  {
    Overlay(AsConfigs(tests), AsConfigs(sources))
      ["mojito-test" := Config(mojitoTestPath, Some(["mojito"]))]
      ["mojito" := Config(mojitoPath, None)]
  }

  /** The merge: every source entry clobbers the test entry of its name, the
      names only the tests have are kept, and the two base modules are set
      last, whatever was discovered for them. */
  lemma MojitConfigEntries(tests: Modules, sources: Modules, mojitoTestPath: string, mojitoPath: string, k: string)
    ensures var r := MojitConfig(tests, sources, mojitoTestPath, mojitoPath);
      && (k in r <==> k in tests || k in sources || k == "mojito" || k == "mojito-test")
      && (k == "mojito" ==> r[k] == Config(mojitoPath, None))
      && (k == "mojito-test" ==> r[k] == Config(mojitoTestPath, Some(["mojito"])))
      && (k != "mojito" && k != "mojito-test" && k in sources ==> r[k] == AsConfig(sources[k]))
      && (k != "mojito" && k != "mojito-test" && k !in sources && k in tests ==> r[k] == AsConfig(tests[k]))
  {
  }

  /** mojitConfigs: discover the modules of `path`, and those of `testPath`
      skipping the paths `testRe` (the regular expression `/-tests?$/`)
      matches; overlay the second registry on the first key by key; then set
      the two base modules. Their fullpaths are parameters. */
  method MojitConfigs<P>(fs: Fs, path: Roots, testPath: Roots, testRe: P, matches: (P, string) -> bool,
                         eval: Evaluator, mojitoTestPath: string, mojitoPath: string)
    returns (r: Result<map<string, Config>, FsError>)
    requires fs.Valid()
    ensures var tests := WalkRoots(fs.nodes, [], matches, eval, RootList(path));
      var sources := WalkRoots(fs.nodes, [testRe], matches, eval, RootList(testPath));
      && (tests.Err? ==> r == Err(tests.error))
      && (tests.Ok? && sources.Err? ==> r == Err(sources.error))
      && (tests.Ok? && sources.Ok? ==> r == Ok(MojitConfig(tests.value, sources.value, mojitoTestPath, mojitoPath)))
  {
    var testModules := ConfigureModules(fs, path, None, matches, eval);
    if testModules.Err? {
      return Err(testModules.error);
    }
    var sourceModules := ConfigureModules(fs, testPath, Some([testRe]), matches, eval);
    if sourceModules.Err? {
      return Err(sourceModules.error);
    }
    var testConfigs := OverlayConfigs(AsConfigs(testModules.value), AsConfigs(sourceModules.value));
    testConfigs := testConfigs["mojito-test" := Config(mojitoTestPath, Some(["mojito"]))];
    testConfigs := testConfigs["mojito" := Config(mojitoPath, None)];
    return Ok(testConfigs);
  }
}
