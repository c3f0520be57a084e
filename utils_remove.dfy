/**
 * removeDir of lib/utils.js: empties a directory tree bottom-up. Files are
 * unlinked as the listing is walked; each sub-directory is emptied by the
 * recursive call and remembered, and the remembered directories are removed
 * after the walk. The directory itself stays, empty.
 */
module TreeRemove {
  import opened Common
  import opened FileSystem
  import opened TreeCopy

  /** The tree once removeDir(src) has finished: nothing beneath `src` is
      left, `src` is an empty directory, and every other entry is as it was. */
  ghost function Emptied(nodes: map<Path, Node>, src: Path): (r: map<Path, Node>)
    requires src in nodes
  {
    (map k | k in nodes && !StrictlyBelow(src, k) :: nodes[k])[src := Dir([])]
  }

  /** `b` is `a` emptied at `src`, entry by entry. */
  ghost predicate EmptiedFrom(a: map<Path, Node>, b: map<Path, Node>, src: Path) {
    && (forall k :: k in b <==> k in a && !StrictlyBelow(src, k))
    && src in b && b[src] == Dir([])
    && (forall k :: k in b && k != src ==> b[k] == a[k])
  }

  lemma EmptiedCharacterised(a: map<Path, Node>, src: Path)
    requires src in a
    ensures EmptiedFrom(a, Emptied(a, src), src)
  {
  }

  lemma EmptiedFromIsEmptied(a: map<Path, Node>, b: map<Path, Node>, src: Path)
    requires src in a && EmptiedFrom(a, b, src)
    ensures b == Emptied(a, src)
  {
  }

  /** `k` lies under a child of `src` named in `done`. */
  predicate Touched(src: Path, done: seq<string>, k: Path) {
    StrictlyBelow(src, k) && k[|src|] in done
  }

  /** Entry `k` has been removed by the walk over the children named in
      `done`: it lies under one of them and is not one of the child
      directories themselves (those wait for the final rmdir). */
  ghost predicate Gone(n0: map<Path, Node>, src: Path, done: seq<string>, k: Path) {
    Touched(src, done, k) && !(|k| == |src| + 1 && IsDirIn(n0, k))
  }

  /** The child directories among `done`, in walk order: `emptydirs`. */
  function DirsOf(n0: map<Path, Node>, src: Path, done: seq<string>): (r: seq<Path>)
    ensures forall x :: src + [x] in r <==> x in done && IsDirIn(n0, src + [x])
    ensures forall k :: k in r ==> |k| == |src| + 1 && k[..|src|] == src && IsDirIn(n0, k)
    ensures Distinct(done) ==> Distinct(r)
    decreases |done|
  {
    if done == [] then []
    else
      var x := done[|done| - 1];
      var front := DirsOf(n0, src, done[..|done| - 1]);
      assert forall y :: y in done <==> y in done[..|done| - 1] || y == x;
      assert forall y :: src + [y] == src + [x] ==> y == x by {
        forall y | src + [y] == src + [x] ensures y == x { assert (src + [y])[|src|] == y; }
      }
      assert Distinct(done) ==> x !in done[..|done| - 1];
      if IsDirIn(n0, src + [x]) then front + [src + [x]] else front
  }

  // ---------------------------------------------------------------------------
  // The state during the walk, once the children in `done` are handled.

  ghost predicate WalkedKeys(n0: map<Path, Node>, now: map<Path, Node>, src: Path, done: seq<string>) {
    forall k :: k in now <==> k in n0 && !Gone(n0, src, done, k)
  }

  ghost predicate WalkedSame(n0: map<Path, Node>, now: map<Path, Node>, src: Path, done: seq<string>) {
    forall k :: k in now && k != src && !Touched(src, done, k) ==> k in n0 && now[k] == n0[k]
  }

  ghost predicate WalkedEmptied(n0: map<Path, Node>, now: map<Path, Node>, src: Path, done: seq<string>) {
    forall x :: x in done && IsDirIn(n0, src + [x]) ==> src + [x] in now && now[src + [x]] == Dir([])
  }

  ghost predicate WalkedListing(n0: map<Path, Node>, now: map<Path, Node>, src: Path, filenames: seq<string>,
                                done: seq<string>) {
    && src in now && now[src].Dir?
    && (forall x :: x in now[src].entries <==> x in filenames && (x !in done || IsDirIn(n0, src + [x])))
  }

  // The state while the remembered directories are removed, once those before
  // `pending` are gone.

  ghost predicate SweepKeys(n0: map<Path, Node>, now: map<Path, Node>, src: Path, pending: seq<Path>) {
    forall k :: k in now <==> k in n0 && (!StrictlyBelow(src, k) || k in pending)
  }

  ghost predicate SweepSame(n0: map<Path, Node>, now: map<Path, Node>, src: Path) {
    forall k :: k in now && !StrictlyBelow(src, k) && k != src ==> k in n0 && now[k] == n0[k]
  }

  ghost predicate SweepPending(now: map<Path, Node>, pending: seq<Path>) {
    forall k :: k in pending ==> k in now && now[k] == Dir([])
  }

  ghost predicate SweepListing(now: map<Path, Node>, src: Path, pending: seq<Path>) {
    && src in now && now[src].Dir?
    && (forall x :: x in now[src].entries <==> src + [x] in pending)
  }

  // ---------------------------------------------------------------------------
  // Paths.

  /** Below `src`, the entries whose first component is `x` are `src + [x]`
      and what lies beneath it. */
  lemma ChildSplit(src: Path, x: string, k: Path)
    ensures (StrictlyBelow(src, k) && k[|src|] == x) <==> (k == src + [x] || StrictlyBelow(src + [x], k))
  {
    if StrictlyBelow(src, k) && k[|src|] == x {
      assert k[..|src| + 1] == k[..|src|] + [k[|src|]];
      if |k| == |src| + 1 {
        assert k == k[..|src| + 1];
      }
    }
    if StrictlyBelow(src + [x], k) {
      ChildPrefix(src, x, k);
    }
  }

  lemma SameChild(src: Path, x: string, y: string)
    ensures src + [x] == src + [y] <==> x == y
  {
    assert (src + [x])[|src|] == x && (src + [y])[|src|] == y;
  }

  lemma AppendMember(done: seq<string>, x: string)
    ensures forall y :: y in done + [x] <==> y in done || y == x
  {
  }

  lemma NoMemberEmpty(s: seq<string>)
    ensures (forall x :: x !in s) ==> s == []
  {
    if s != [] {
      assert s[0] in s;
    }
  }

  // ---------------------------------------------------------------------------
  // The walk.

  lemma WalkStart(n0: map<Path, Node>, src: Path)
    requires src in n0 && n0[src].Dir?
    ensures WalkedKeys(n0, n0, src, []) && WalkedSame(n0, n0, src, [])
    ensures WalkedEmptied(n0, n0, src, []) && WalkedListing(n0, n0, src, n0[src].entries, [])
  {
  }

  /** The next child is still present when the walk reaches it. */
  lemma ChildPresent(n0: map<Path, Node>, now: map<Path, Node>, src: Path, filenames: seq<string>, i: nat)
    requires ValidTree(n0) && src in n0 && n0[src] == Dir(filenames) && i < |filenames|
    requires WalkedKeys(n0, now, src, filenames[..i]) && WalkedSame(n0, now, src, filenames[..i])
    ensures filenames[i] !in filenames[..i]
    ensures src + [filenames[i]] in now && now[src + [filenames[i]]] == n0[src + [filenames[i]]]
    ensures forall k :: k in now && StrictlyBelow(src + [filenames[i]], k) ==> k in n0
  {
    var x := filenames[i];
    assert src + [x] in n0;
    assert (src + [x])[|src|] == x;
  }

  // A child directory is emptied by the recursive call.

  lemma DirStepKeys(n0: map<Path, Node>, now: map<Path, Node>, next: map<Path, Node>, src: Path,
                    done: seq<string>, x: string)
    requires x !in done && IsDirIn(n0, src + [x])
    requires WalkedKeys(n0, now, src, done) && EmptiedFrom(now, next, src + [x])
    ensures WalkedKeys(n0, next, src, done + [x])
  {
    AppendMember(done, x);
    forall k ensures k in next <==> k in n0 && !Gone(n0, src, done + [x], k) {
      ChildSplit(src, x, k);
    }
  }

  lemma DirStepSame(n0: map<Path, Node>, now: map<Path, Node>, next: map<Path, Node>, src: Path,
                    done: seq<string>, x: string)
    requires WalkedSame(n0, now, src, done) && EmptiedFrom(now, next, src + [x])
    ensures WalkedSame(n0, next, src, done + [x])
  {
    AppendMember(done, x);
    forall k | k in next && k != src && !Touched(src, done + [x], k) ensures k in n0 && next[k] == n0[k] {
      ChildSplit(src, x, k);
    }
  }

  lemma DirStepEmptied(n0: map<Path, Node>, now: map<Path, Node>, next: map<Path, Node>, src: Path,
                       done: seq<string>, x: string)
    requires WalkedEmptied(n0, now, src, done) && EmptiedFrom(now, next, src + [x])
    ensures WalkedEmptied(n0, next, src, done + [x])
  {
    AppendMember(done, x);
    forall y | y in done + [x] && IsDirIn(n0, src + [y]) ensures src + [y] in next && next[src + [y]] == Dir([]) {
      ChildSplit(src, x, src + [y]);
      SameChild(src, x, y);
      assert (src + [y])[|src|] == y;
    }
  }

  lemma DirStepListing(n0: map<Path, Node>, now: map<Path, Node>, next: map<Path, Node>, src: Path,
                       filenames: seq<string>, done: seq<string>, x: string)
    requires IsDirIn(n0, src + [x])
    requires WalkedListing(n0, now, src, filenames, done) && EmptiedFrom(now, next, src + [x])
    ensures WalkedListing(n0, next, src, filenames, done + [x])
  {
    AppendMember(done, x);
    ChildSplit(src, x, src);
  }

  /** The walk after a child directory is emptied. */
  lemma DirStep(n0: map<Path, Node>, now: map<Path, Node>, next: map<Path, Node>, src: Path,
                filenames: seq<string>, done: seq<string>, x: string)
    requires x !in done && IsDirIn(n0, src + [x])
    requires WalkedKeys(n0, now, src, done) && WalkedSame(n0, now, src, done)
    requires WalkedEmptied(n0, now, src, done) && WalkedListing(n0, now, src, filenames, done)
    requires src + [x] in now && EmptiedFrom(now, next, src + [x])
    ensures WalkedKeys(n0, next, src, done + [x]) && WalkedSame(n0, next, src, done + [x])
    ensures WalkedEmptied(n0, next, src, done + [x]) && WalkedListing(n0, next, src, filenames, done + [x])
  {
    DirStepKeys(n0, now, next, src, done, x);
    DirStepSame(n0, now, next, src, done, x);
    DirStepEmptied(n0, now, next, src, done, x);
    DirStepListing(n0, now, next, src, filenames, done, x);
  }

  // A child file is unlinked.

  /** Nothing lies beneath a file. */
  lemma NothingBelowFile(n0: map<Path, Node>, file: Path, k: Path)
    requires ParentsList(n0) && file in n0 && n0[file].File?
    ensures !(k in n0 && StrictlyBelow(file, k))
  {
    if k in n0 && StrictlyBelow(file, k) {
      AncestorPresent(n0, file, k);
    }
  }

  lemma FileStepKeys(n0: map<Path, Node>, now: map<Path, Node>, src: Path, done: seq<string>, x: string)
    requires ParentsList(n0) && src + [x] in n0 && n0[src + [x]].File?
    requires WalkedKeys(n0, now, src, done) && src in now && src + [x] in now && Parent(src + [x]) == src && now[src].Dir?
    ensures WalkedKeys(n0, RemoveEntry(now, src + [x]), src, done + [x])
  {
    AppendMember(done, x);
    ChildParent(src, x);
    var next := RemoveEntry(now, src + [x]);
    forall k ensures k in next <==> k in n0 && !Gone(n0, src, done + [x], k) {
      ChildSplit(src, x, k);
      NothingBelowFile(n0, src + [x], k);
    }
  }

  lemma FileStepSame(n0: map<Path, Node>, now: map<Path, Node>, src: Path, done: seq<string>, x: string)
    requires WalkedSame(n0, now, src, done) && src in now && src + [x] in now && Parent(src + [x]) == src && now[src].Dir?
    ensures WalkedSame(n0, RemoveEntry(now, src + [x]), src, done + [x])
  {
    AppendMember(done, x);
    ChildParent(src, x);
    var next := RemoveEntry(now, src + [x]);
    forall k | k in next && k != src && !Touched(src, done + [x], k) ensures k in n0 && next[k] == n0[k] {
      ChildSplit(src, x, k);
    }
  }

  lemma FileStepEmptied(n0: map<Path, Node>, now: map<Path, Node>, src: Path, done: seq<string>, x: string)
    requires src + [x] in n0 && n0[src + [x]].File?
    requires WalkedEmptied(n0, now, src, done) && src in now && src + [x] in now && Parent(src + [x]) == src && now[src].Dir?
    ensures WalkedEmptied(n0, RemoveEntry(now, src + [x]), src, done + [x])
  {
    AppendMember(done, x);
    ChildParent(src, x);
    var next := RemoveEntry(now, src + [x]);
    forall y | y in done + [x] && IsDirIn(n0, src + [y]) ensures src + [y] in next && next[src + [y]] == Dir([]) {
      SameChild(src, x, y);
      assert src + [y] != src by { assert |src + [y]| != |src|; }
    }
  }

  lemma FileStepListing(n0: map<Path, Node>, now: map<Path, Node>, src: Path, filenames: seq<string>,
                        done: seq<string>, x: string)
    requires src + [x] in n0 && n0[src + [x]].File?
    requires WalkedListing(n0, now, src, filenames, done) && src + [x] in now && Parent(src + [x]) == src
    ensures WalkedListing(n0, RemoveEntry(now, src + [x]), src, filenames, done + [x])
  {
    AppendMember(done, x);
    ChildParent(src, x);
  }

  /** The walk after a child file is unlinked. */
  lemma FileStep(n0: map<Path, Node>, now: map<Path, Node>, src: Path, filenames: seq<string>,
                 done: seq<string>, x: string)
    requires ParentsList(n0) && src + [x] in n0 && n0[src + [x]].File?
    requires WalkedKeys(n0, now, src, done) && WalkedSame(n0, now, src, done)
    requires WalkedEmptied(n0, now, src, done) && WalkedListing(n0, now, src, filenames, done)
    requires src + [x] in now && Parent(src + [x]) == src
    ensures var next := RemoveEntry(now, src + [x]);
      && WalkedKeys(n0, next, src, done + [x]) && WalkedSame(n0, next, src, done + [x])
      && WalkedEmptied(n0, next, src, done + [x]) && WalkedListing(n0, next, src, filenames, done + [x])
  {
    FileStepKeys(n0, now, src, done, x);
    FileStepSame(n0, now, src, done, x);
    FileStepEmptied(n0, now, src, done, x);
    FileStepListing(n0, now, src, filenames, done, x);
  }

  // The walk is over.

  lemma SweepStartKeys(n0: map<Path, Node>, now: map<Path, Node>, src: Path, filenames: seq<string>)
    requires ValidTree(n0) && src in n0 && n0[src] == Dir(filenames)
    requires WalkedKeys(n0, now, src, filenames)
    ensures SweepKeys(n0, now, src, DirsOf(n0, src, filenames))
  {
    var pending := DirsOf(n0, src, filenames);
    forall k | k in n0 ensures !Gone(n0, src, filenames, k) <==> !StrictlyBelow(src, k) || k in pending {
      if StrictlyBelow(src, k) {
        AncestorPresent(n0, src, k);
        ChildSplit(src, k[|src|], k);
      }
    }
  }

  lemma SweepStartRest(n0: map<Path, Node>, now: map<Path, Node>, src: Path, filenames: seq<string>)
    requires WalkedSame(n0, now, src, filenames) && WalkedEmptied(n0, now, src, filenames)
    requires WalkedListing(n0, now, src, filenames, filenames)
    ensures SweepSame(n0, now, src)
    ensures SweepPending(now, DirsOf(n0, src, filenames))
    ensures SweepListing(now, src, DirsOf(n0, src, filenames))
  {
    var pending := DirsOf(n0, src, filenames);
    forall k | k in now && !StrictlyBelow(src, k) && k != src ensures k in n0 && now[k] == n0[k] {
    }
    forall k | k in pending ensures k in now && now[k] == Dir([]) {
      assert k == k[..|src|] + [k[|src|]];
    }
  }

  // A remembered directory is removed.

  lemma SweepStep(n0: map<Path, Node>, now: map<Path, Node>, src: Path, pending: seq<Path>)
    requires pending != [] && Distinct(pending)
    requires forall k :: k in pending ==> |k| == |src| + 1 && k[..|src|] == src
    requires SweepKeys(n0, now, src, pending) && SweepSame(n0, now, src)
    requires SweepPending(now, pending) && SweepListing(now, src, pending)
    ensures pending[0] in now && now[pending[0]] == Dir([]) && pending[0] != []
    ensures Parent(pending[0]) == src
    ensures var next := RemoveEntry(now, pending[0]);
      SweepKeys(n0, next, src, pending[1..]) && SweepSame(n0, next, src) &&
      SweepPending(next, pending[1..]) && SweepListing(next, src, pending[1..])
  {
    var d := pending[0];
    assert d in pending;
    assert d == src + [Last(d)];
    assert d !in pending[1..];
    var next := RemoveEntry(now, d);
    forall y ensures y in next[src].entries <==> src + [y] in pending[1..] {
      SameChild(src, y, Last(d));
    }
    forall k | k in pending[1..] ensures k in pending && StrictlyBelow(src, k) {
    }
  }

  lemma SweepDone(n0: map<Path, Node>, now: map<Path, Node>, src: Path)
    requires src in n0
    requires SweepKeys(n0, now, src, []) && SweepSame(n0, now, src) && SweepListing(now, src, [])
    ensures EmptiedFrom(n0, now, src)
  {
    NoMemberEmpty(now[src].entries);
  }

  // ---------------------------------------------------------------------------

  /** One turn of removeDir's walk: a child directory is emptied by the
      recursive call and remembered, a child file is unlinked. */
  method RemoveChild(fs: Fs, ghost n0: map<Path, Node>, src: Path, filenames: seq<string>, i: nat,
                     emptydirs: seq<Path>)
    returns (dirs: seq<Path>)
    requires fs.Valid()
    requires ValidTree(n0) && src in n0 && n0[src] == Dir(filenames) && i < |filenames|
    requires WalkedKeys(n0, fs.nodes, src, filenames[..i]) && WalkedSame(n0, fs.nodes, src, filenames[..i])
    requires WalkedEmptied(n0, fs.nodes, src, filenames[..i])
    requires WalkedListing(n0, fs.nodes, src, filenames, filenames[..i])
    requires emptydirs == DirsOf(n0, src, filenames[..i])
    modifies fs
    decreases Below(n0, src), 0
    ensures fs.Valid()
    ensures WalkedKeys(n0, fs.nodes, src, filenames[..i + 1]) && WalkedSame(n0, fs.nodes, src, filenames[..i + 1])
    ensures WalkedEmptied(n0, fs.nodes, src, filenames[..i + 1])
    ensures WalkedListing(n0, fs.nodes, src, filenames, filenames[..i + 1])
    ensures dirs == DirsOf(n0, src, filenames[..i + 1])
  {
    var name := filenames[i];
    var file := src + [name];
    ChildPresent(n0, fs.nodes, src, filenames, i);
    TakeNext(filenames, i);
    ghost var now := fs.nodes;
    if fs.nodes[file].Dir? {
      dirs := emptydirs + [file];
      BelowShrinks(n0, fs.nodes, src, name);
      var _ := RemoveDir(fs, file);
      EmptiedCharacterised(now, file);
      DirStep(n0, now, fs.nodes, src, filenames, filenames[..i], name);
    } else {
      dirs := emptydirs;
      ChildParent(src, name);
      FileStep(n0, now, src, filenames, filenames[..i], name);
      fs.Unlink(file);
    }
  }

  /** removeDir(src): a missing `src` is left alone, a file is refused. */
  method RemoveDir(fs: Fs, src: Path) returns (err: Option<UtilError>)
    requires fs.Valid()
    modifies fs
    decreases Below(fs.nodes, src), 1
    ensures fs.Valid()
    ensures src !in old(fs.nodes) ==> err == None && fs.nodes == old(fs.nodes)
    ensures src in old(fs.nodes) && old(fs.nodes)[src].File? ==>
              err == Some(MustBeADirectory(PathString(src))) && fs.nodes == old(fs.nodes)
    ensures src in old(fs.nodes) && old(fs.nodes)[src].Dir? ==>
              err == None && fs.nodes == Emptied(old(fs.nodes), src)
  {
    if src !in fs.nodes {
      return None;
    }
    if fs.nodes[src].File? {
      return Some(MustBeADirectory(PathString(src)));
    }
    ghost var n0 := fs.nodes;
    var filenames := fs.nodes[src].entries;
    var emptydirs: seq<Path> := [];
    WalkStart(n0, src);
    var i := 0;
    while i < |filenames|
      invariant 0 <= i <= |filenames|
      invariant fs.Valid()
      invariant WalkedKeys(n0, fs.nodes, src, filenames[..i])
      invariant WalkedSame(n0, fs.nodes, src, filenames[..i])
      invariant WalkedEmptied(n0, fs.nodes, src, filenames[..i])
      invariant WalkedListing(n0, fs.nodes, src, filenames, filenames[..i])
      invariant emptydirs == DirsOf(n0, src, filenames[..i])
    {
      emptydirs := RemoveChild(fs, n0, src, filenames, i, emptydirs);
      i := i + 1;
    }
    TakeAll(filenames, i);
    SweepStartKeys(n0, fs.nodes, src, filenames);
    SweepStartRest(n0, fs.nodes, src, filenames);
    var count := 0;
    while count < |emptydirs|
      invariant 0 <= count <= |emptydirs|
      invariant fs.Valid()
      invariant emptydirs == DirsOf(n0, src, filenames)
      invariant SweepKeys(n0, fs.nodes, src, emptydirs[count..]) && SweepSame(n0, fs.nodes, src)
      invariant SweepPending(fs.nodes, emptydirs[count..]) && SweepListing(fs.nodes, src, emptydirs[count..])
    {
      assert Distinct(emptydirs[count..]);
      SweepStep(n0, fs.nodes, src, emptydirs[count..]);
      fs.Rmdir(emptydirs[count]);
      assert emptydirs[count..][1..] == emptydirs[count + 1..];
      count := count + 1;
    }
    SweepDone(n0, fs.nodes, src);
    EmptiedFromIsEmptied(n0, fs.nodes, src);
    err := None;
  }

  /** Emptying is idempotent: a second removeDir changes nothing. */
  lemma EmptiedIdempotent(nodes: map<Path, Node>, src: Path)
    requires src in nodes
    ensures Emptied(Emptied(nodes, src), src) == Emptied(nodes, src)
  {
  }

  /** Emptying a directory of a real tree leaves a real tree. */
  lemma EmptiedValid(nodes: map<Path, Node>, src: Path)
    requires ValidTree(nodes) && src in nodes && nodes[src].Dir?
    ensures ValidTree(Emptied(nodes, src))
  {
    var m := Emptied(nodes, src);
    forall q, n | q + [n] in m ensures q in m && m[q].Dir? && n in m[q].entries {
      ExtendBelow(src, q, n);
      assert StrictlyBelow(q, q + [n]);
    }
    forall q, n | q in m && m[q].Dir? && n in m[q].entries ensures q + [n] in m {
      assert q != src;
      ShrinkBelow(src, q, n);
    }
  }

  lemma ExtendBelow(p: Path, q: Path, n: string)
    ensures IsPrefix(p, q) ==> StrictlyBelow(p, q + [n])
  {
    if IsPrefix(p, q) {
      assert (q + [n])[..|p|] == q[..|p|];
    }
  }

  lemma ShrinkBelow(p: Path, q: Path, n: string)
    ensures StrictlyBelow(p, q + [n]) ==> IsPrefix(p, q)
  {
    if StrictlyBelow(p, q + [n]) && |p| <= |q| {
      assert (q + [n])[..|p|] == q[..|p|];
    }
  }
}
