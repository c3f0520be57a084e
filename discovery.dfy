/**
 * Module discovery of lib/yui-module-configurator.js: walk one or more
 * directory trees, skip every path an exclusion pattern matches, and run each
 * `.js` file with a stub `YUI.add` that records, under the module's name, the
 * file it came from and what the module requires.
 *
 * Patterns are abstract: `P` stands for a RegExp (or a string used as one) and
 * `matches(pattern, path)` for `path.match(pattern)` being truthy. Running a
 * file in the shared vm context is an oracle `eval(source, filename)` that
 * reports the `YUI.add` calls the file made, in order, and whether it threw
 * after them.
 */
module ModuleDiscovery {
  import opened Common
  import opened FileSystem

  /** The `meta` argument of one `YUI.add(name, fn, version, meta)` call: None
      when it is falsy; its `required` is None when `meta.requires` is falsy. */
  datatype Meta = Meta(required: Option<seq<string>>)

  datatype YuiAdd = YuiAdd(name: string, meta: Option<Meta>)

  /** What running a file did: the `YUI.add` calls it made, and whether it then
      threw (the thrown error is only turned into a message, never rethrown). */
  datatype Evaluation =
    | Completed(adds: seq<YuiAdd>)
    | Threw(adds: seq<YuiAdd>, message: string)

  type Evaluator = (string, string) -> Evaluation

  datatype ModuleRecord = ModuleRecord(fullpath: string, required: seq<string>)

  type Modules = map<string, ModuleRecord>

  // ---------------------------------------------------------------------------
  // isExcluded(path, ex)

  predicate AnyMatches<P>(ex: seq<P>, matches: (P, string) -> bool, path: string) {
    exists i :: 0 <= i < |ex| && matches(ex[i], path)
  }

  /** The loop of isExcluded: true at the first pattern found in `path`. */
  method IsExcluded<P>(path: string, ex: seq<P>, matches: (P, string) -> bool) returns (r: bool)
    ensures r <==> AnyMatches(ex, matches, path)
  {
    var i := 0;
    while i < |ex|
      invariant 0 <= i <= |ex|
      invariant forall j :: 0 <= j < i ==> !matches(ex[j], path)
    {
      if matches(ex[i], path) {
        return true;
      }
      i := i + 1;
    }
    return false;
  }

  /** An empty exclusion list excludes nothing. */
  lemma NoPatternsExcludeNothing<P>(matches: (P, string) -> bool, path: string)
    ensures !AnyMatches([], matches, path)
  {
  }

  // ---------------------------------------------------------------------------
  // updateModulesWithFile(modules, meta, fullpath)

  /** `path.extname(name) === '.js'`: the name ends in `.js` with at least one
      character before it (the extension of a bare `.js` is empty). */
  predicate HasJsExtension(name: string) {
    |name| > 3 && EndsWith(name, ".js")
  }

  /** `meta.requires || []`, with a missing `meta` read as `{}`. */
  function RequiresOf(a: YuiAdd): (r: seq<string>) {
    if a.meta.None? || a.meta.value.required.None? then [] else a.meta.value.required.value
  }

  /** The index of the last call in `adds` that names `name`, or -1. */
  function LastCall(adds: seq<YuiAdd>, name: string): (j: int)
    ensures -1 <= j < |adds|
    ensures j >= 0 ==> adds[j].name == name && forall k :: j < k < |adds| ==> adds[k].name != name
    ensures j == -1 ==> forall k :: 0 <= k < |adds| ==> adds[k].name != name
    decreases |adds|
  {
    if adds == [] then -1
    else if adds[|adds| - 1].name == name then |adds| - 1
    else
      var j := LastCall(adds[..|adds| - 1], name);
      assert forall k :: 0 <= k < |adds| - 1 ==> adds[..|adds| - 1][k] == adds[k];
      j
  }

  /** The registry once the stub has handled `adds`, in order, while the file
      `fullpath` runs: every call overwrites the entry of its name. */
  function Register(modules: Modules, fullpath: string, adds: seq<YuiAdd>): (r: Modules)
    decreases |adds|
  {
    if adds == [] then modules
    else
      var a := adds[|adds| - 1];
      Register(modules, fullpath, adds[..|adds| - 1])[a.name := ModuleRecord(fullpath, RequiresOf(a))]
  }

  /** The last call for a name decides its entry, which carries the path of
      the running file; a name no call mentions keeps its entry, or its absence. */
  lemma {:induction false} RegisterEntry(modules: Modules, fullpath: string, adds: seq<YuiAdd>, name: string)
    ensures var r := Register(modules, fullpath, adds);
      var j := LastCall(adds, name);
      && (j >= 0 ==> name in r && r[name] == ModuleRecord(fullpath, RequiresOf(adds[j])))
      && (j == -1 ==> (name in r <==> name in modules) && (name in modules ==> r[name] == modules[name]))
    decreases |adds|
  {
    if adds != [] {
      var front := adds[..|adds| - 1];
      RegisterEntry(modules, fullpath, front, name);
      if adds[|adds| - 1].name != name {
        assert LastCall(adds, name) == LastCall(front, name);
        var j := LastCall(front, name);
        if j >= 0 {
          assert front[j] == adds[j];
        }
      }
    }
  }

  /** The files walkDir hands to updateModulesWithFile are files of the tree. */
  predicate AreFiles(nodes: map<Path, Node>, files: seq<Path>) {
    forall p :: p in files ==> p != [] && p in nodes && nodes[p].File?
  }

  /** What updateModulesWithFile does to the registry for the file `p`. */
  function FileUpdate(nodes: map<Path, Node>, eval: Evaluator, modules: Modules, p: Path): (r: Modules)
    requires p != [] && p in nodes && nodes[p].File?
  {
    if HasJsExtension(Last(p)) then
      Register(modules, PathString(p), eval(nodes[p].content, PathString(p)).adds)
    else modules
  }

  /** The file `p` runs and calls `YUI.add` for `name`. */
  predicate Registers(nodes: map<Path, Node>, eval: Evaluator, p: Path, name: string) {
    && p != [] && p in nodes && nodes[p].File?
    && HasJsExtension(Last(p))
    && var adds := eval(nodes[p].content, PathString(p)).adds;
       exists k :: 0 <= k < |adds| && adds[k].name == name
  }

  /** updateModulesWithFile: read and run a `.js` file with the stub installed;
      the stub's calls mutate the registry one by one, and a throw after them
      is swallowed. */
  method UpdateModulesWithFile(fs: Fs, eval: Evaluator, modules: Modules, fullpath: Path) returns (r: Modules)
    requires fullpath != [] && fullpath in fs.nodes && fs.nodes[fullpath].File?
    ensures r == FileUpdate(fs.nodes, eval, modules, fullpath)
  {
    r := modules;
    if HasJsExtension(Last(fullpath)) {
      var file := fs.nodes[fullpath].content;
      var filename := PathString(fullpath);
      var outcome := eval(file, filename);
      var adds := outcome.adds;
      var k := 0;
      while k < |adds|
        invariant 0 <= k <= |adds|
        invariant r == Register(modules, filename, adds[..k])
      {
        assert adds[..k + 1][..k] == adds[..k];
        r := r[adds[k].name := ModuleRecord(filename, RequiresOf(adds[k]))];
        k := k + 1;
      }
      assert adds[..k] == adds;
    }
  }

  /** Whether a file throws after its registrations makes no difference. */
  lemma ThrowIsSwallowed(nodes: map<Path, Node>, eval: Evaluator, other: Evaluator, modules: Modules, p: Path)
    requires p != [] && p in nodes && nodes[p].File?
    requires eval(nodes[p].content, PathString(p)).adds == other(nodes[p].content, PathString(p)).adds
    ensures FileUpdate(nodes, eval, modules, p) == FileUpdate(nodes, other, modules, p)
  {
  }

  // ---------------------------------------------------------------------------
  // The registry after a sequence of files.

  /** The registry once updateModulesWithFile has run on `files`, in order. */
  function ApplyFiles(nodes: map<Path, Node>, eval: Evaluator, modules: Modules, files: seq<Path>): (r: Modules)
    requires AreFiles(nodes, files)
    decreases |files|
  {
    if files == [] then modules
    else
      var front := files[..|files| - 1];
      assert forall p :: p in front ==> p in files;
      assert files[|files| - 1] in files;
      FileUpdate(nodes, eval, ApplyFiles(nodes, eval, modules, front), files[|files| - 1])
  }

  lemma {:induction false} ApplyFilesAppend(nodes: map<Path, Node>, eval: Evaluator, modules: Modules,
                                            a: seq<Path>, b: seq<Path>)
    requires AreFiles(nodes, a) && AreFiles(nodes, b)
    ensures AreFiles(nodes, a + b)
    ensures ApplyFiles(nodes, eval, modules, a + b) == ApplyFiles(nodes, eval, ApplyFiles(nodes, eval, modules, a), b)
    decreases |b|
  {
    assert forall p :: p in a + b ==> p in a || p in b;
    if b != [] {
      var front := b[..|b| - 1];
      assert forall p :: p in front ==> p in b;
      ApplyFilesAppend(nodes, eval, modules, a, front);
      assert (a + b)[..|a + b| - 1] == a + front;
      assert (a + b)[|a + b| - 1] == b[|b| - 1];
    } else {
      assert a + b == a;
    }
  }

  /** The index of the last file in `files` that registers `name`, or -1. */
  function LastFile(nodes: map<Path, Node>, eval: Evaluator, files: seq<Path>, name: string): (j: int)
    ensures -1 <= j < |files|
    ensures j >= 0 ==> Registers(nodes, eval, files[j], name) &&
                       forall k :: j < k < |files| ==> !Registers(nodes, eval, files[k], name)
    ensures j == -1 ==> forall k :: 0 <= k < |files| ==> !Registers(nodes, eval, files[k], name)
    decreases |files|
  {
    if files == [] then -1
    else if Registers(nodes, eval, files[|files| - 1], name) then |files| - 1
    else
      var j := LastFile(nodes, eval, files[..|files| - 1], name);
      assert forall k :: 0 <= k < |files| - 1 ==> files[..|files| - 1][k] == files[k];
      j
  }

  /** The entry of the running file's last call for `name`. */
  function EntryFrom(nodes: map<Path, Node>, eval: Evaluator, p: Path, name: string): (r: ModuleRecord)
    requires Registers(nodes, eval, p, name)
  {
    var adds := eval(nodes[p].content, PathString(p)).adds;
    ModuleRecord(PathString(p), RequiresOf(adds[LastCall(adds, name)]))
  }

  /** Last write wins across files: the last file that registers a name
      decides its entry, which names that file; a name no file registers
      keeps its entry, or its absence. */
  lemma {:induction false} ApplyFilesEntry(nodes: map<Path, Node>, eval: Evaluator, modules: Modules,
                                           files: seq<Path>, name: string)
    requires AreFiles(nodes, files)
    ensures var r := ApplyFiles(nodes, eval, modules, files);
      var j := LastFile(nodes, eval, files, name);
      && (j >= 0 ==> name in r && r[name] == EntryFrom(nodes, eval, files[j], name))
      && (j == -1 ==> (name in r <==> name in modules) && (name in modules ==> r[name] == modules[name]))
    decreases |files|
  {
    if files != [] {
      var front := files[..|files| - 1];
      var last := files[|files| - 1];
      assert forall p :: p in front ==> p in files;
      assert last in files;
      ApplyFilesEntry(nodes, eval, modules, front, name);
      var before := ApplyFiles(nodes, eval, modules, front);
      if HasJsExtension(Last(last)) {
        RegisterEntry(before, PathString(last), eval(nodes[last].content, PathString(last)).adds, name);
      }
      if !Registers(nodes, eval, last, name) {
        var j := LastFile(nodes, eval, front, name);
        if j >= 0 {
          assert front[j] == files[j];
        }
      }
    }
  }

  // ---------------------------------------------------------------------------
  // walkDir(dir, modules, excludes)

  /** No path from below `dir` down to `p`, `p` included, is excluded. */
  predicate Unexcluded<P>(ex: seq<P>, matches: (P, string) -> bool, dir: Path, p: Path) {
    forall j :: |dir| < j <= |p| ==> !AnyMatches(ex, matches, PathString(p[..j]))
  }

  /** The files walkDir(dir) hands to updateModulesWithFile, in walk order:
      the listing in order, an excluded entry skipped before it is looked at,
      a directory walked in place. */
  function Visited<P>(nodes: map<Path, Node>, ex: seq<P>, matches: (P, string) -> bool, dir: Path): (r: seq<Path>)
    requires ValidTree(nodes) && IsDirIn(nodes, dir)
    ensures AreFiles(nodes, r)
    decreases Below(nodes, dir), 2, 0
  {
    VisitedAmong(nodes, ex, matches, dir, |nodes[dir].entries|)
  }

  /** The files visited for the first `i` entries of the listing of `dir`. */
  function VisitedAmong<P>(nodes: map<Path, Node>, ex: seq<P>, matches: (P, string) -> bool, dir: Path, i: nat)
    : (r: seq<Path>)
    requires ValidTree(nodes) && IsDirIn(nodes, dir) && i <= |nodes[dir].entries|
    ensures AreFiles(nodes, r)
    decreases Below(nodes, dir), 1, i
  {
    if i == 0 then []
    else
      var front := VisitedAmong(nodes, ex, matches, dir, i - 1);
      var child := VisitedChild(nodes, ex, matches, dir, nodes[dir].entries[i - 1]);
      assert forall p :: p in front + child ==> p in front || p in child;
      front + child
  }

  /** The files visited for the entry `x` of `dir`. */
  function VisitedChild<P>(nodes: map<Path, Node>, ex: seq<P>, matches: (P, string) -> bool, dir: Path, x: string)
    : (r: seq<Path>)
    requires ValidTree(nodes) && IsDirIn(nodes, dir) && x in nodes[dir].entries
    ensures AreFiles(nodes, r)
    decreases Below(nodes, dir), 0, 0
  {
    var p := dir + [x];
    assert p in nodes;
    if AnyMatches(ex, matches, PathString(p)) then []
    else if nodes[p].Dir? then
      BelowShrinks(nodes, nodes, dir, x);
      Visited(nodes, ex, matches, p)
    else [p]
  }

  /** walkDir: list `dir` (which fails unless it is a directory), and for each
      entry in order, unless it is excluded, walk it or update from it. */
  method WalkDir<P>(fs: Fs, dir: Path, modules: Modules, excludes: seq<P>, matches: (P, string) -> bool,
                    eval: Evaluator)
    returns (r: Result<Modules, FsError>)
    requires fs.Valid()
    decreases Below(fs.nodes, dir)
    ensures dir !in fs.nodes ==> r == Err(NoEntry(PathString(dir)))
    ensures dir in fs.nodes && fs.nodes[dir].File? ==> r == Err(NotADirectory(PathString(dir)))
    ensures IsDirIn(fs.nodes, dir) ==>
              r == Ok(ApplyFiles(fs.nodes, eval, modules, Visited(fs.nodes, excludes, matches, dir)))
  {
    if dir !in fs.nodes {
      return Err(NoEntry(PathString(dir)));
    }
    if fs.nodes[dir].File? {
      return Err(NotADirectory(PathString(dir)));
    }
    var files := fs.nodes[dir].entries;
    var m := modules;
    var i := 0;
    while i < |files|
      invariant 0 <= i <= |files|
      invariant m == ApplyFiles(fs.nodes, eval, modules, VisitedAmong(fs.nodes, excludes, matches, dir, i))
    {
      ghost var before := m;
      var filepath := dir + [files[i]];
      ChildUpdate(fs.nodes, excludes, matches, eval, dir, files[i], m);
      var excluded := IsExcluded(PathString(filepath), excludes, matches);
      if !excluded {
        if fs.nodes[filepath].Dir? {
          BelowShrinks(fs.nodes, fs.nodes, dir, files[i]);
          var sub := WalkDir(fs, filepath, m, excludes, matches, eval);
          m := sub.value;
        } else {
          m := UpdateModulesWithFile(fs, eval, m, filepath);
        }
      }
      WalkStep(fs.nodes, excludes, matches, eval, dir, modules, i, before, m);
      i := i + 1;
    }
    return Ok(m);
  }

  /** What the files visited for the entry `x` of `dir` do to a registry. */
  lemma ChildUpdate<P>(nodes: map<Path, Node>, ex: seq<P>, matches: (P, string) -> bool, eval: Evaluator,
                       dir: Path, x: string, m: Modules)
    requires ValidTree(nodes) && IsDirIn(nodes, dir) && x in nodes[dir].entries
    ensures dir + [x] in nodes
    ensures ApplyFiles(nodes, eval, m, VisitedChild(nodes, ex, matches, dir, x)) ==
      if AnyMatches(ex, matches, PathString(dir + [x])) then m
      else if nodes[dir + [x]].Dir? then ApplyFiles(nodes, eval, m, Visited(nodes, ex, matches, dir + [x]))
      else FileUpdate(nodes, eval, m, dir + [x])
  {
    var p := dir + [x];
    assert p in nodes;
    if !AnyMatches(ex, matches, PathString(p)) && nodes[p].File? {
      assert VisitedChild(nodes, ex, matches, dir, x) == [p];
      assert [p][..0] == [];
    }
  }

  /** One more entry of the listing of `dir`. */
  lemma WalkStep<P>(nodes: map<Path, Node>, ex: seq<P>, matches: (P, string) -> bool, eval: Evaluator,
                    dir: Path, modules: Modules, i: nat, m: Modules, next: Modules)
    requires ValidTree(nodes) && IsDirIn(nodes, dir) && i < |nodes[dir].entries|
    requires m == ApplyFiles(nodes, eval, modules, VisitedAmong(nodes, ex, matches, dir, i))
    requires next == ApplyFiles(nodes, eval, m, VisitedChild(nodes, ex, matches, dir, nodes[dir].entries[i]))
    ensures next == ApplyFiles(nodes, eval, modules, VisitedAmong(nodes, ex, matches, dir, i + 1))
  {
    ApplyFilesAppend(nodes, eval, modules, VisitedAmong(nodes, ex, matches, dir, i),
                     VisitedChild(nodes, ex, matches, dir, nodes[dir].entries[i]));
  }

  // ---------------------------------------------------------------------------
  // Which files the walk visits.

  /** Every visited file lies below `dir` with nothing on its way down
      excluded: an excluded directory's subtree is never reached and an
      excluded file is never run. */
  lemma {:induction false} VisitedSound<P>(nodes: map<Path, Node>, ex: seq<P>, matches: (P, string) -> bool,
                                           dir: Path)
    requires ValidTree(nodes) && IsDirIn(nodes, dir)
    ensures forall q :: q in Visited(nodes, ex, matches, dir) ==> StrictlyBelow(dir, q) && Unexcluded(ex, matches, dir, q)
    decreases Below(nodes, dir), 2, 0
  {
    AmongSound(nodes, ex, matches, dir, |nodes[dir].entries|);
  }

  lemma {:induction false} AmongSound<P>(nodes: map<Path, Node>, ex: seq<P>, matches: (P, string) -> bool,
                                         dir: Path, i: nat)
    requires ValidTree(nodes) && IsDirIn(nodes, dir) && i <= |nodes[dir].entries|
    ensures forall q :: q in VisitedAmong(nodes, ex, matches, dir, i) ==>
              StrictlyBelow(dir, q) && Unexcluded(ex, matches, dir, q)
    decreases Below(nodes, dir), 1, i
  {
    if i > 0 {
      AmongSound(nodes, ex, matches, dir, i - 1);
      ChildSound(nodes, ex, matches, dir, nodes[dir].entries[i - 1]);
    }
  }

  lemma {:induction false} ChildSound<P>(nodes: map<Path, Node>, ex: seq<P>, matches: (P, string) -> bool,
                                         dir: Path, x: string)
    requires ValidTree(nodes) && IsDirIn(nodes, dir) && x in nodes[dir].entries
    ensures forall q :: q in VisitedChild(nodes, ex, matches, dir, x) ==>
              StrictlyBelow(dir, q) && Unexcluded(ex, matches, dir, q)
    decreases Below(nodes, dir), 0, 0
  {
    var p := dir + [x];
    assert p in nodes;
    if !AnyMatches(ex, matches, PathString(p)) {
      if nodes[p].Dir? {
        BelowShrinks(nodes, nodes, dir, x);
        VisitedSound(nodes, ex, matches, p);
        forall q | q in Visited(nodes, ex, matches, p)
          ensures StrictlyBelow(dir, q) && Unexcluded(ex, matches, dir, q)
        {
          UnexcludedExtend(ex, matches, dir, x, q);
        }
      } else {
        assert p[..|dir| + 1] == p;
      }
    }
  }

  /** A path below the unexcluded child `dir + [x]` that is unexcluded from
      there is unexcluded from `dir`. */
  lemma UnexcludedExtend<P>(ex: seq<P>, matches: (P, string) -> bool, dir: Path, x: string, q: Path)
    requires !AnyMatches(ex, matches, PathString(dir + [x]))
    requires StrictlyBelow(dir + [x], q) && Unexcluded(ex, matches, dir + [x], q)
    ensures StrictlyBelow(dir, q) && Unexcluded(ex, matches, dir, q)
  {
    ChildPrefix(dir, x, q);
    assert q[..|dir| + 1] == dir + [x];
  }

  /** Every file below `dir` with nothing on its way down excluded is visited. */
  lemma {:induction false} VisitedComplete<P>(nodes: map<Path, Node>, ex: seq<P>, matches: (P, string) -> bool,
                                              dir: Path, q: Path)
    requires ValidTree(nodes) && IsDirIn(nodes, dir)
    requires q in nodes && nodes[q].File? && StrictlyBelow(dir, q) && Unexcluded(ex, matches, dir, q)
    ensures q in Visited(nodes, ex, matches, dir)
    decreases |q| - |dir|
  {
    AncestorPresent(nodes, dir, q);
    var x := q[|dir|];
    var p := dir + [x];
    var es := nodes[dir].entries;
    var i :| 0 <= i < |es| && es[i] == x;
    assert q[..|dir| + 1] == p by {
      assert q[..|dir| + 1] == q[..|dir|] + [q[|dir|]];
    }
    assert !AnyMatches(ex, matches, PathString(p));
    if |q| == |dir| + 1 {
      assert q == p;
    } else {
      assert StrictlyBelow(p, q);
      AncestorPresent(nodes, p, q);
      assert Unexcluded(ex, matches, p, q);
      VisitedComplete(nodes, ex, matches, p, q);
    }
    assert q in VisitedChild(nodes, ex, matches, dir, es[i]);
    AmongContains(nodes, ex, matches, dir, i, |es|);
  }

  lemma {:induction false} AmongContains<P>(nodes: map<Path, Node>, ex: seq<P>, matches: (P, string) -> bool,
                                            dir: Path, i: nat, n: nat)
    requires ValidTree(nodes) && IsDirIn(nodes, dir) && i < n <= |nodes[dir].entries|
    ensures forall q :: q in VisitedChild(nodes, ex, matches, dir, nodes[dir].entries[i]) ==>
              q in VisitedAmong(nodes, ex, matches, dir, n)
    decreases n
  {
    if n > i + 1 {
      AmongContains(nodes, ex, matches, dir, i, n - 1);
    }
  }

  // ---------------------------------------------------------------------------
  // The exported function.

  /** The `dir` argument: undefined, one directory, or an array of them. */
  datatype Roots = Undefined | One(root: Path) | Several(roots: seq<Path>)

  function RootList(dir: Roots): (r: seq<Path>) {
    match dir
    case Undefined => []
    case One(d) => [d]
    case Several(ds) => ds
  }

  /** `excludes || []`. */
  function ExcludesOrEmpty<P>(excludes: Option<seq<P>>): (r: seq<P>) {
    if excludes.None? then [] else excludes.value
  }

  /** The roots walked in order into one registry; the first root that cannot
      be listed fails the whole call. */
  function WalkRoots<P>(nodes: map<Path, Node>, ex: seq<P>, matches: (P, string) -> bool, eval: Evaluator,
                        roots: seq<Path>): (r: Result<Modules, FsError>)
    requires ValidTree(nodes)
    decreases |roots|
  {
    if roots == [] then Ok(map[])
    else
      match WalkRoots(nodes, ex, matches, eval, roots[..|roots| - 1])
      case Err(e) => Err(e)
      case Ok(m) =>
        var d := roots[|roots| - 1];
        if d !in nodes then Err(NoEntry(PathString(d)))
        else if nodes[d].File? then Err(NotADirectory(PathString(d)))
        else Ok(ApplyFiles(nodes, eval, m, Visited(nodes, ex, matches, d)))
  }

  /** module.exports(dir, excludes). */
  method ConfigureModules<P>(fs: Fs, dir: Roots, excludes: Option<seq<P>>, matches: (P, string) -> bool,
                             eval: Evaluator)
    returns (r: Result<Modules, FsError>)
    requires fs.Valid()
    ensures dir.Undefined? ==> r == Ok(map[])
    ensures r == WalkRoots(fs.nodes, ExcludesOrEmpty(excludes), matches, eval, RootList(dir))
  {
    var ex := if excludes.None? then [] else excludes.value;
    var modules: Modules := map[];
    if dir.Undefined? {
      return Ok(modules);
    }
    var roots := if dir.One? then [dir.root] else dir.roots;
    var i := 0;
    while i < |roots|
      invariant 0 <= i <= |roots|
      invariant WalkRoots(fs.nodes, ex, matches, eval, roots[..i]) == Ok(modules)
    {
      WalkRootsStep(fs.nodes, ex, matches, eval, roots, i, modules);
      var walked := WalkDir(fs, roots[i], modules, ex, matches, eval);
      if walked.Err? {
        WalkRootsFails(fs.nodes, ex, matches, eval, roots, i + 1);
        return walked;
      }
      modules := walked.value;
      i := i + 1;
    }
    assert roots[..i] == roots;
    return Ok(modules);
  }

  /** Walking one more root after a prefix that succeeded. */
  lemma WalkRootsStep<P>(nodes: map<Path, Node>, ex: seq<P>, matches: (P, string) -> bool, eval: Evaluator,
                         roots: seq<Path>, i: nat, m: Modules)
    requires ValidTree(nodes) && i < |roots|
    requires WalkRoots(nodes, ex, matches, eval, roots[..i]) == Ok(m)
    ensures var d := roots[i];
      WalkRoots(nodes, ex, matches, eval, roots[..i + 1])
      == if d !in nodes then Err(NoEntry(PathString(d)))
         else if nodes[d].File? then Err(NotADirectory(PathString(d)))
         else Ok(ApplyFiles(nodes, eval, m, Visited(nodes, ex, matches, d)))
  {
    assert roots[..i + 1][..i] == roots[..i];
  }

  /** Once a prefix of the roots fails, so do all the roots. */
  lemma {:induction false} WalkRootsFails<P>(nodes: map<Path, Node>, ex: seq<P>, matches: (P, string) -> bool,
                                             eval: Evaluator, roots: seq<Path>, i: nat)
    requires ValidTree(nodes) && i <= |roots|
    ensures WalkRoots(nodes, ex, matches, eval, roots[..i]).Err? ==>
              WalkRoots(nodes, ex, matches, eval, roots) == WalkRoots(nodes, ex, matches, eval, roots[..i])
    decreases |roots| - i
  {
    if i < |roots| {
      WalkRootsFails(nodes, ex, matches, eval, roots, i + 1);
      assert roots[..i + 1][..i] == roots[..i];
    } else {
      assert roots[..i] == roots;
    }
  }

  /** A single directory is the one-element array. */
  lemma OneRootIsList<P>(nodes: map<Path, Node>, ex: seq<P>, matches: (P, string) -> bool, eval: Evaluator,
                         d: Path)
    requires ValidTree(nodes)
    ensures WalkRoots(nodes, ex, matches, eval, RootList(One(d)))
         == WalkRoots(nodes, ex, matches, eval, RootList(Several([d])))
  {
  }

  /** A name registered by some file of the last root's walk takes its entry
      from the last such file, whatever earlier roots registered. */
  lemma LaterRootWins<P>(nodes: map<Path, Node>, ex: seq<P>, matches: (P, string) -> bool, eval: Evaluator,
                         roots: seq<Path>, name: string)
    requires ValidTree(nodes) && roots != []
    requires WalkRoots(nodes, ex, matches, eval, roots).Ok?
    requires IsDirIn(nodes, roots[|roots| - 1])
    requires LastFile(nodes, eval, Visited(nodes, ex, matches, roots[|roots| - 1]), name) >= 0
    ensures var files := Visited(nodes, ex, matches, roots[|roots| - 1]);
      var r := WalkRoots(nodes, ex, matches, eval, roots).value;
      name in r && r[name] == EntryFrom(nodes, eval, files[LastFile(nodes, eval, files, name)], name)
  {
    var files := Visited(nodes, ex, matches, roots[|roots| - 1]);
    var m := WalkRoots(nodes, ex, matches, eval, roots[..|roots| - 1]).value;
    ApplyFilesEntry(nodes, eval, m, files, name);
  }
}
