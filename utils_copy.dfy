/**
 * The recursive directory copy of lib/utils.js (copyFile, copyUsingMatcher,
 * copyExclude) over the in-memory file system.
 *
 * A matcher is any function of (path string, 'file' | 'dir') that either
 * answers "exclude?" or fails; failures propagate out of the copy just as a
 * `throw` inside `excludeMatcher` would.
 */
module TreeCopy {
  import opened Common
  import opened FileSystem
  import opened ExclusionRules

  datatype UtilError =
    | DoesNotExist(path: string)       // src + ' does not exist'
    | MustBeADirectory(path: string)   // src + ' must be a directory'
    | FsFailure(fsError: FsError)      // an exception from an fs call
    | MatcherFailure(matchError: MatchError)

  type Matcher = (string, string) -> Result<bool, MatchError>

  /** The `type` argument handed to the matcher, from statSync(file).isDirectory(). */
  function KindName(n: Node): (r: string) {
    if n.Dir? then "dir" else "file"
  }

  /** `src + rel` is reached by the copy: every step of the way, from the
      child of `src` down to `src + rel` itself, is present, is not excluded by
      the matcher, and every step but the last is a directory. */
  predicate Kept(nodes: map<Path, Node>, excluded: Matcher, src: Path, rel: Path)
    decreases |rel|
  {
    && rel != []
    && src + [rel[0]] in nodes
    && excluded(PathString(src + [rel[0]]), KindName(nodes[src + [rel[0]]])) == Ok(false)
    && (|rel| > 1 ==> nodes[src + [rel[0]]].Dir? && Kept(nodes, excluded, src + [rel[0]], rel[1..]))
  }

  /** `a` and `b` agree on `p` and everything beneath it. */
  ghost predicate SameBeneath(a: map<Path, Node>, b: map<Path, Node>, p: Path) {
    forall k :: IsPrefix(p, k) ==> (k in a <==> k in b) && (k in a ==> a[k] == b[k])
  }

  /** `b` is `a` with entries added or changed at `d` and beneath it only; the
      listing of `d`'s parent may gain `d`, and stays a directory. Nothing is
      removed. */
  ghost predicate Grows(a: map<Path, Node>, b: map<Path, Node>, d: Path) {
    && d != []
    && a.Keys <= b.Keys
    && (forall k :: k in b && !IsPrefix(d, k) ==> k in a)
    && (forall k :: k in a && !IsPrefix(d, k) && k != Parent(d) ==> b[k] == a[k])
    && (Parent(d) in a && a[Parent(d)].Dir? ==> b[Parent(d)].Dir?)
  }

  /** Every entry created below `dest` mirrors a kept entry below `src`. */
  ghost predicate OnlyKept(a: map<Path, Node>, b: map<Path, Node>, excluded: Matcher, src: Path, dest: Path) {
    forall rel :: rel != [] && dest + rel in b && dest + rel !in a ==> Kept(a, excluded, src, rel)
  }

  /** `src + rel` has its counterpart `dest + rel`; a file has the same
      content, and a directory arrives as a directory unless a file stood in
      its place beforehand (mkdirSync is skipped when the path exists). */
  ghost predicate Copied(a: map<Path, Node>, b: map<Path, Node>, src: Path, dest: Path, rel: Path) {
    && src + rel in a
    && dest + rel in b
    && (a[src + rel].File? ==> b[dest + rel] == a[src + rel])
    && (a[src + rel].Dir? && (dest + rel !in a || a[dest + rel].Dir?) ==> b[dest + rel].Dir?)
  }

  /** Every kept entry below `src` is copied to the same place below `dest`. */
  ghost predicate CopiedTo(a: map<Path, Node>, b: map<Path, Node>, excluded: Matcher, src: Path, dest: Path) {
    forall rel :: Kept(a, excluded, src, rel) ==> Copied(a, b, src, dest, rel)
  }

  /** The same, for the kept entries under the children named in `done`. */
  ghost predicate CopiedPart(a: map<Path, Node>, b: map<Path, Node>, excluded: Matcher, src: Path, dest: Path,
                             done: seq<string>) {
    forall rel :: rel != [] && Kept(a, excluded, src, rel) && rel[0] in done ==> Copied(a, b, src, dest, rel)
  }

  /** The copy asks the matcher about `src + rel`: the entry is present, and
      every step before it on the way down is a directory the matcher kept.
      Nothing beneath an excluded directory is ever asked about. */
  predicate Asked(nodes: map<Path, Node>, excluded: Matcher, src: Path, rel: Path)
    decreases |rel|
  {
    && rel != []
    && src + [rel[0]] in nodes
    && (|rel| > 1 ==>
          && nodes[src + [rel[0]]].Dir?
          && excluded(PathString(src + [rel[0]]), "dir") == Ok(false)
          && Asked(nodes, excluded, src + [rel[0]], rel[1..]))
  }

  /** The matcher answers, without failing, every question the copy asks. */
  ghost predicate AnsweredAll(nodes: map<Path, Node>, excluded: Matcher, src: Path) {
    forall rel :: Asked(nodes, excluded, src, rel) && src + rel in nodes ==>
      excluded(PathString(src + rel), KindName(nodes[src + rel])).Ok?
  }

  /** The same, for the questions under the children named in `done`. */
  ghost predicate AnsweredPart(nodes: map<Path, Node>, excluded: Matcher, src: Path, done: seq<string>) {
    forall rel :: Asked(nodes, excluded, src, rel) && src + rel in nodes && rel[0] in done ==>
      excluded(PathString(src + rel), KindName(nodes[src + rel])).Ok?
  }

  /** Some question the copy asks makes the matcher fail with `m`. */
  ghost predicate MatcherFailed(nodes: map<Path, Node>, excluded: Matcher, src: Path, m: MatchError) {
    exists rel :: Asked(nodes, excluded, src, rel) && src + rel in nodes &&
      excluded(PathString(src + rel), KindName(nodes[src + rel])) == Err(m)
  }

  /** `dest` does not exist yet and mkdirSync can create it. */
  predicate FreshDest(nodes: map<Path, Node>, dest: Path) {
    dest != [] && dest !in nodes && Parent(dest) in nodes && nodes[Parent(dest)].Dir?
  }

  /** Every entry strictly below `dest` that was created or changed lies
      under one of the children named in `done`. */
  ghost predicate ChangedUnder(a: map<Path, Node>, b: map<Path, Node>, dest: Path, done: seq<string>) {
    forall k :: StrictlyBelow(dest, k) && k[|dest|] !in done ==> (k in b <==> k in a) && (k in a ==> b[k] == a[k])
  }

  /** The shape of the tree while the copy runs: it grows at `dest` only,
      by copies of kept entries, and `dest` exists (a directory if it was
      created or already one). */
  ghost predicate Shape(n0: map<Path, Node>, nodes: map<Path, Node>, excluded: Matcher, src: Path, dest: Path) {
    && Grows(n0, nodes, dest) && OnlyKept(n0, nodes, excluded, src, dest)
    && dest in nodes && ((dest !in n0 || n0[dest].Dir?) ==> nodes[dest].Dir?)
  }

  /** The state of copyUsingMatcher's loop once the first `i` names of the
      listing have been dealt with. */
  ghost predicate CopiedUpTo(n0: map<Path, Node>, nodes: map<Path, Node>, excluded: Matcher, src: Path, dest: Path,
                             filenames: seq<string>, i: nat)
    requires i <= |filenames|
  {
    && Shape(n0, nodes, excluded, src, dest)
    && CopiedPart(n0, nodes, excluded, src, dest, filenames[..i])
    && ChangedUnder(n0, nodes, dest, filenames[..i])
    && AnsweredPart(n0, excluded, src, filenames[..i])
  }

  // ---------------------------------------------------------------------------
  // Facts about the predicates above.

  /** A question asked is about an entry that exists. */
  lemma {:induction false} AskedPresent(nodes: map<Path, Node>, excluded: Matcher, src: Path, rel: Path)
    requires Asked(nodes, excluded, src, rel)
    ensures src + rel in nodes
    decreases |rel|
  {
    var c := src + [rel[0]];
    if |rel| > 1 {
      AskedPresent(nodes, excluded, c, rel[1..]);
      assert c + rel[1..] == src + rel;
    } else {
      assert src + rel == c;
    }
  }

  /** Which questions are asked depends only on the source subtree. */
  lemma {:induction false} AskedFrame(a: map<Path, Node>, b: map<Path, Node>, excluded: Matcher, src: Path, rel: Path)
    requires SameBeneath(a, b, src)
    ensures Asked(a, excluded, src, rel) <==> Asked(b, excluded, src, rel)
    decreases |rel|
  {
    if rel != [] {
      var c := src + [rel[0]];
      assert IsPrefix(src, c);
      if |rel| > 1 {
        SameBeneathChild(a, b, src, rel[0]);
        AskedFrame(a, b, excluded, c, rel[1..]);
      }
    }
  }

  /** A question under a kept child directory is a question of the copy of
      that child, about the same entry. */
  lemma AskedUnderChild(nodes: map<Path, Node>, excluded: Matcher, src: Path, name: string, r: Path)
    requires r != []
    requires src + [name] in nodes && nodes[src + [name]].Dir?
    requires excluded(PathString(src + [name]), "dir") == Ok(false)
    ensures Asked(nodes, excluded, src, [name] + r) <==> Asked(nodes, excluded, src + [name], r)
    ensures src + ([name] + r) == (src + [name]) + r
  {
    assert ([name] + r)[0] == name && ([name] + r)[1..] == r;
  }

  /** An entry of a directory that does not exist does not exist either. */
  lemma NothingBelowMissing(nodes: map<Path, Node>, dest: Path, k: Path)
    requires ParentsList(nodes) && dest !in nodes && IsPrefix(dest, k)
    ensures k !in nodes
  {
    if k in nodes {
      AncestorPresent(nodes, dest, k);
    }
  }

  /** A name listed once is not among the names listed before it. */
  lemma NotEarlier(filenames: seq<string>, i: nat)
    requires Distinct(filenames) && i < |filenames|
    ensures filenames[i] !in filenames[..i]
  {
  }

  /** All children done: every question of the copy has been answered. */
  lemma FinishAnswered(n0: map<Path, Node>, excluded: Matcher, src: Path)
    requires ValidTree(n0) && src in n0 && n0[src].Dir?
    requires AnsweredPart(n0, excluded, src, n0[src].entries)
    ensures AnsweredAll(n0, excluded, src)
  {
    forall rel | Asked(n0, excluded, src, rel) && src + rel in n0
      ensures excluded(PathString(src + rel), KindName(n0[src + rel])).Ok?
    {
      ChildParent(src, rel[0]);
    }
  }

  /** The entries created or changed by copying child `name` lie under
      `dest + [name]`. */
  lemma ChangedStep(n0: map<Path, Node>, n1: map<Path, Node>, n2: map<Path, Node>, dest: Path,
                    filenames: seq<string>, i: nat)
    requires i < |filenames|
    requires ChangedUnder(n0, n1, dest, filenames[..i])
    requires n2 == n1 || Grows(n1, n2, dest + [filenames[i]])
    ensures ChangedUnder(n0, n2, dest, filenames[..i + 1])
  {
    var name := filenames[i];
    assert filenames[..i + 1] == filenames[..i] + [name];
    forall k | StrictlyBelow(dest, k) && k[|dest|] !in filenames[..i + 1]
      ensures (k in n2 <==> k in n0) && (k in n0 ==> n2[k] == n0[k])
    {
      if IsPrefix(dest + [name], k) {
        ChildPrefix(dest, name, k);
      }
    }
  }

  /** A kept entry exists. */
  lemma {:induction false} KeptPresent(nodes: map<Path, Node>, excluded: Matcher, src: Path, rel: Path)
    requires Kept(nodes, excluded, src, rel)
    ensures src + rel in nodes
    decreases |rel|
  {
    var c := src + [rel[0]];
    if |rel| > 1 {
      KeptPresent(nodes, excluded, c, rel[1..]);
      assert c + rel[1..] == src + rel;
    } else {
      assert src + rel == c;
    }
  }

  lemma SameBeneathChild(a: map<Path, Node>, b: map<Path, Node>, p: Path, n: string)
    requires SameBeneath(a, b, p)
    ensures SameBeneath(a, b, p + [n])
  {
    forall k | IsPrefix(p + [n], k) ensures (k in a <==> k in b) && (k in a ==> a[k] == b[k]) {
      ChildPrefix(p, n, k);
    }
  }

  /** Whether an entry is kept depends only on the source subtree. */
  lemma {:induction false} KeptFrame(a: map<Path, Node>, b: map<Path, Node>, excluded: Matcher, src: Path, rel: Path)
    requires SameBeneath(a, b, src)
    ensures Kept(a, excluded, src, rel) <==> Kept(b, excluded, src, rel)
    decreases |rel|
  {
    if rel != [] {
      var c := src + [rel[0]];
      assert IsPrefix(src, c);
      if |rel| > 1 {
        SameBeneathChild(a, b, src, rel[0]);
        KeptFrame(a, b, excluded, c, rel[1..]);
      }
    }
  }

  /** The copy leaves its source untouched: a tree that grows only at `dest`
      agrees with the old one on every path disjoint from `dest`. */
  lemma GrowsKeepsSource(a: map<Path, Node>, b: map<Path, Node>, src: Path, dest: Path)
    requires Grows(a, b, dest) && Disjoint(src, dest)
    ensures SameBeneath(a, b, src)
  {
    forall k | IsPrefix(src, k) ensures (k in a <==> k in b) && (k in a ==> a[k] == b[k]) {
      if IsPrefix(dest, k) {
        PrefixesComparable(src, dest, k);
      }
      assert IsPrefix(Parent(dest), dest);
      if k == Parent(dest) {
        PrefixTransitive(src, Parent(dest), dest);
      }
    }
  }

  lemma GrowsRefl(a: map<Path, Node>, d: Path)
    requires d != []
    ensures Grows(a, a, d)
  {
  }

  lemma AddEntryGrows(a: map<Path, Node>, p: Path, node: Node)
    requires p != [] && p !in a && Parent(p) in a && a[Parent(p)].Dir?
    ensures Grows(a, AddEntry(a, p, node), p)
    ensures forall k :: k in AddEntry(a, p, node) && k !in a ==> k == p
  {
  }

  lemma WrittenGrows(a: map<Path, Node>, p: Path, content: string)
    requires p != [] && Parent(p) in a && a[Parent(p)].Dir?
    ensures Grows(a, Written(a, p, content), p)
    ensures forall k :: k in Written(a, p, content) && k !in a ==> k == p
    ensures p in Written(a, p, content) && Written(a, p, content)[p] == File(content)
  {
  }

  /** Growing at `dest`, then at one of its children, is growing at `dest`. */
  lemma GrowsChain(n0: map<Path, Node>, n1: map<Path, Node>, n2: map<Path, Node>, dest: Path, name: string)
    requires Grows(n0, n1, dest) && Grows(n1, n2, dest + [name])
    ensures Grows(n0, n2, dest)
    ensures dest in n1 && n1[dest].Dir? ==> n2[dest].Dir?
  {
    var nd := dest + [name];
    assert Parent(nd) == dest;
    forall k | k in n2 && !IsPrefix(dest, k) ensures k in n0 {
      if IsPrefix(nd, k) { ChildPrefix(dest, name, k); }
    }
    forall k | k in n0 && !IsPrefix(dest, k) && k != Parent(dest) ensures n2[k] == n0[k] {
      if IsPrefix(nd, k) { ChildPrefix(dest, name, k); }
      assert IsPrefix(dest, dest);
    }
    if Parent(dest) in n0 && n0[Parent(dest)].Dir? {
      assert !IsPrefix(nd, Parent(dest));
    }
  }

  lemma PrefixDropLast(p: Path, q: Path, n: string)
    ensures IsPrefix(p + [n], q + [n]) ==> IsPrefix(p, q)
  {
    if |p| <= |q| {
      assert (q + [n])[..|p|] == q[..|p|];
      assert (q + [n])[..|p| + 1][..|p|] == (q + [n])[..|p|];
      assert (p + [n])[..|p|] == p;
    }
  }

  lemma DisjointChildren(src: Path, dest: Path, name: string)
    requires Disjoint(src, dest)
    ensures Disjoint(src + [name], dest + [name])
  {
    PrefixDropLast(src, dest, name);
    PrefixDropLast(dest, src, name);
  }

  /** The recursion into a child directory is on a strictly smaller subtree. */
  lemma RecursionShrinks(n0: map<Path, Node>, now: map<Path, Node>, src: Path, name: string)
    requires src + [name] in n0 && SameBeneath(n0, now, src)
    ensures Below(now, src + [name]) < Below(n0, src)
  {
    forall k | k in now && StrictlyBelow(src + [name], k) ensures k in n0 {
      ChildPrefix(src, name, k);
    }
    BelowShrinks(n0, now, src, name);
  }

  /** A name of `src` the matcher excludes adds nothing to copy. */
  lemma StepExcluded(n0: map<Path, Node>, n1: map<Path, Node>, excluded: Matcher, src: Path, dest: Path,
                     filenames: seq<string>, i: nat)
    requires i < |filenames| && src + [filenames[i]] in n0
    requires excluded(PathString(src + [filenames[i]]), KindName(n0[src + [filenames[i]]])) == Ok(true)
    requires CopiedPart(n0, n1, excluded, src, dest, filenames[..i])
    ensures CopiedPart(n0, n1, excluded, src, dest, filenames[..i + 1])
  {
    assert filenames[..i + 1] == filenames[..i] + [filenames[i]];
  }

  /** After a file child is copied. */
  lemma StepFile(n0: map<Path, Node>, n1: map<Path, Node>, excluded: Matcher, src: Path, dest: Path,
                 filenames: seq<string>, i: nat)
    requires i < |filenames| && Distinct(filenames)
    requires src + [filenames[i]] in n0 && n0[src + [filenames[i]]].File?
    requires excluded(PathString(src + [filenames[i]]), "file") == Ok(false)
    requires Grows(n0, n1, dest) && OnlyKept(n0, n1, excluded, src, dest)
    requires CopiedPart(n0, n1, excluded, src, dest, filenames[..i])
    requires dest + [filenames[i]] != [] && Parent(dest + [filenames[i]]) in n1
             && n1[Parent(dest + [filenames[i]])].Dir?
    ensures var n2 := Written(n1, dest + [filenames[i]], n0[src + [filenames[i]]].content);
      && Grows(n0, n2, dest) && OnlyKept(n0, n2, excluded, src, dest)
      && CopiedPart(n0, n2, excluded, src, dest, filenames[..i + 1])
      && (dest in n1 && n1[dest].Dir? ==> n2[dest].Dir?)
  {
    var name := filenames[i];
    var file, nd := src + [name], dest + [name];
    var n2 := Written(n1, nd, n0[file].content);
    WrittenGrows(n1, nd, n0[file].content);
    GrowsChain(n0, n1, n2, dest, name);
    forall rel | rel != [] && dest + rel in n2 && dest + rel !in n0 ensures Kept(n0, excluded, src, rel) {
      if dest + rel !in n1 {
        assert rel == (dest + rel)[|dest|..];
        assert rel == [name];
      }
    }
    assert filenames[..i + 1] == filenames[..i] + [name];
    forall rel | rel != [] && Kept(n0, excluded, src, rel) && rel[0] in filenames[..i + 1]
      ensures Copied(n0, n2, src, dest, rel)
    {
      KeptPresent(n0, excluded, src, rel);
      if rel[0] == name {
        assert |rel| == 1;
        assert rel == [name];
      } else {
        assert rel[0] in filenames[..i];
        NotUnderSibling(dest, name, rel);
        assert dest + rel != Parent(nd);
      }
    }
  }

  /** After a directory child is copied by the recursive call: the frame, kept
      whether the call succeeded or not. */
  lemma StepDirFrame(n0: map<Path, Node>, n1: map<Path, Node>, n2: map<Path, Node>, excluded: Matcher,
                     src: Path, dest: Path, name: string)
    requires src + [name] in n0 && n0[src + [name]].Dir?
    requires excluded(PathString(src + [name]), "dir") == Ok(false)
    requires SameBeneath(n0, n1, src)
    requires Grows(n0, n1, dest) && OnlyKept(n0, n1, excluded, src, dest)
    requires Grows(n1, n2, dest + [name]) && OnlyKept(n1, n2, excluded, src + [name], dest + [name])
    ensures Grows(n0, n2, dest) && OnlyKept(n0, n2, excluded, src, dest)
    ensures dest in n1 && n1[dest].Dir? ==> n2[dest].Dir?
  {
    var file, nd := src + [name], dest + [name];
    GrowsChain(n0, n1, n2, dest, name);
    SameBeneathChild(n0, n1, src, name);
    forall rel | rel != [] && dest + rel in n2 && dest + rel !in n0 ensures Kept(n0, excluded, src, rel) {
      if dest + rel !in n1 {
        ChildPrefix(dest, name, dest + rel);
        assert rel[0] == name;
        var r2 := rel[1..];
        assert dest + rel == nd + r2;
        if r2 != [] {
          KeptFrame(n0, n1, excluded, file, r2);
        }
      }
    }
  }

  /** A kept entry under an earlier child keeps its copy when a later child
      is copied. */
  lemma SiblingCopyKept(n0: map<Path, Node>, n1: map<Path, Node>, n2: map<Path, Node>,
                        src: Path, dest: Path, name: string, rel: Path)
    requires rel != [] && rel[0] != name
    requires Copied(n0, n1, src, dest, rel)
    requires Grows(n1, n2, dest + [name])
    ensures Copied(n0, n2, src, dest, rel)
  {
    NotUnderSibling(dest, name, rel);
    assert dest + rel != Parent(dest + [name]);
  }

  /** A kept entry beneath the directory child itself is copied by the
      recursive call. */
  lemma ChildCopyIsCopy(n0: map<Path, Node>, n1: map<Path, Node>, n2: map<Path, Node>, excluded: Matcher,
                        src: Path, dest: Path, name: string, rel: Path)
    requires |rel| > 1 && rel[0] == name
    requires Kept(n0, excluded, src, rel)
    requires SameBeneath(n0, n1, src)
    requires (dest + rel in n1 <==> dest + rel in n0) && (dest + rel in n0 ==> n1[dest + rel] == n0[dest + rel])
    requires CopiedTo(n1, n2, excluded, src + [name], dest + [name])
    ensures Copied(n0, n2, src, dest, rel)
  {
    var file, nd, r2 := src + [name], dest + [name], rel[1..];
    KeptPresent(n0, excluded, src, rel);
    assert src + rel == file + r2 && dest + rel == nd + r2;
    SameBeneathChild(n0, n1, src, name);
    KeptFrame(n0, n1, excluded, file, r2);
    assert Copied(n1, n2, file, nd, r2);
    assert IsPrefix(file, file + r2);
  }

  /** After a directory child is copied successfully. */
  lemma StepDirCopied(n0: map<Path, Node>, n1: map<Path, Node>, n2: map<Path, Node>, excluded: Matcher,
                      src: Path, dest: Path, filenames: seq<string>, i: nat)
    requires i < |filenames| && Distinct(filenames)
    requires src + [filenames[i]] in n0 && n0[src + [filenames[i]]].Dir?
    requires SameBeneath(n0, n1, src)
    requires CopiedPart(n0, n1, excluded, src, dest, filenames[..i])
    requires ChangedUnder(n0, n1, dest, filenames[..i])
    requires Grows(n1, n2, dest + [filenames[i]]) && dest + [filenames[i]] in n2
    requires (dest + [filenames[i]] !in n1 || n1[dest + [filenames[i]]].Dir?) ==> n2[dest + [filenames[i]]].Dir?
    requires CopiedTo(n1, n2, excluded, src + [filenames[i]], dest + [filenames[i]])
    ensures CopiedPart(n0, n2, excluded, src, dest, filenames[..i + 1])
  {
    var name := filenames[i];
    assert filenames[..i + 1] == filenames[..i] + [name];
    NotEarlier(filenames, i);
    forall rel | rel != [] && Kept(n0, excluded, src, rel) && rel[0] in filenames[..i + 1]
      ensures Copied(n0, n2, src, dest, rel)
    {
      if rel[0] != name {
        SiblingCopyKept(n0, n1, n2, src, dest, name, rel);
      } else if |rel| > 1 {
        assert StrictlyBelow(dest, dest + rel) && (dest + rel)[|dest|] == name;
        ChildCopyIsCopy(n0, n1, n2, excluded, src, dest, name, rel);
      } else {
        assert rel == [name];
        assert StrictlyBelow(dest, dest + rel) && (dest + rel)[|dest|] == name;
      }
    }
  }

  /** All children done: every kept entry is copied. */
  lemma FinishCopied(n0: map<Path, Node>, n1: map<Path, Node>, excluded: Matcher, src: Path, dest: Path)
    requires ValidTree(n0) && src in n0 && n0[src].Dir?
    requires CopiedPart(n0, n1, excluded, src, dest, n0[src].entries)
    ensures CopiedTo(n0, n1, excluded, src, dest)
  {
    forall rel | Kept(n0, excluded, src, rel) ensures Copied(n0, n1, src, dest, rel) {
      ChildParent(src, rel[0]);
    }
  }

  /** The matcher failing on a child of `src` is a failure of the copy. */
  lemma FailedHere(n0: map<Path, Node>, excluded: Matcher, src: Path, name: string)
    requires src + [name] in n0
    requires excluded(PathString(src + [name]), KindName(n0[src + [name]])).Err?
    ensures MatcherFailed(n0, excluded, src, excluded(PathString(src + [name]), KindName(n0[src + [name]])).error)
  {
    assert Asked(n0, excluded, src, [name]);
  }

  /** A failure of the copy of a kept child directory is a failure of the copy. */
  lemma FailedBelow(n0: map<Path, Node>, n1: map<Path, Node>, excluded: Matcher, src: Path, name: string,
                    m: MatchError)
    requires SameBeneath(n0, n1, src)
    requires src + [name] in n0 && n0[src + [name]].Dir?
    requires excluded(PathString(src + [name]), "dir") == Ok(false)
    requires MatcherFailed(n1, excluded, src + [name], m)
    ensures MatcherFailed(n0, excluded, src, m)
  {
    var file := src + [name];
    var r :| Asked(n1, excluded, file, r) && file + r in n1 &&
             excluded(PathString(file + r), KindName(n1[file + r])) == Err(m);
    SameBeneathChild(n0, n1, src, name);
    AskedFrame(n0, n1, excluded, file, r);
    AskedUnderChild(n0, excluded, src, name, r);
    assert IsPrefix(file, file + r);
    assert Asked(n0, excluded, src, [name] + r);
  }

  /** If the copy's questions are all answered, so are those of the copy of
      a kept child directory. */
  lemma AnsweredChild(n0: map<Path, Node>, n1: map<Path, Node>, excluded: Matcher, src: Path, name: string)
    requires SameBeneath(n0, n1, src)
    requires src + [name] in n0 && n0[src + [name]].Dir?
    requires excluded(PathString(src + [name]), "dir") == Ok(false)
    requires AnsweredAll(n0, excluded, src)
    ensures AnsweredAll(n1, excluded, src + [name])
  {
    var file := src + [name];
    SameBeneathChild(n0, n1, src, name);
    forall r | Asked(n1, excluded, file, r) && file + r in n1
      ensures excluded(PathString(file + r), KindName(n1[file + r])).Ok?
    {
      AskedFrame(n0, n1, excluded, file, r);
      AskedUnderChild(n0, excluded, src, name, r);
      assert IsPrefix(file, file + r);
      assert Asked(n0, excluded, src, [name] + r);
    }
  }

  /** A child that is a file, or a directory the matcher excluded, raises
      only the one question about itself. */
  lemma AnsweredStepLeaf(n0: map<Path, Node>, excluded: Matcher, src: Path, filenames: seq<string>, i: nat)
    requires i < |filenames| && src + [filenames[i]] in n0
    requires AnsweredPart(n0, excluded, src, filenames[..i])
    requires excluded(PathString(src + [filenames[i]]), KindName(n0[src + [filenames[i]]])).Ok?
    requires n0[src + [filenames[i]]].File? || excluded(PathString(src + [filenames[i]]), "dir") == Ok(true)
    ensures AnsweredPart(n0, excluded, src, filenames[..i + 1])
  {
    var name := filenames[i];
    assert filenames[..i + 1] == filenames[..i] + [name];
    forall rel | Asked(n0, excluded, src, rel) && src + rel in n0 && rel[0] in filenames[..i + 1]
      ensures excluded(PathString(src + rel), KindName(n0[src + rel])).Ok?
    {
      if rel[0] == name {
        assert |rel| == 1;
        assert rel == [name];
      }
    }
  }

  /** After a kept child directory is copied without error, its questions
      have all been answered. */
  lemma AnsweredStepDir(n0: map<Path, Node>, n1: map<Path, Node>, excluded: Matcher, src: Path,
                        filenames: seq<string>, i: nat)
    requires i < |filenames| && src + [filenames[i]] in n0 && n0[src + [filenames[i]]].Dir?
    requires SameBeneath(n0, n1, src)
    requires AnsweredPart(n0, excluded, src, filenames[..i])
    requires excluded(PathString(src + [filenames[i]]), "dir") == Ok(false)
    requires AnsweredAll(n1, excluded, src + [filenames[i]])
    ensures AnsweredPart(n0, excluded, src, filenames[..i + 1])
  {
    var name := filenames[i];
    var file := src + [name];
    SameBeneathChild(n0, n1, src, name);
    assert filenames[..i + 1] == filenames[..i] + [name];
    forall rel | Asked(n0, excluded, src, rel) && src + rel in n0 && rel[0] in filenames[..i + 1]
      ensures excluded(PathString(src + rel), KindName(n0[src + rel])).Ok?
    {
      if rel[0] == name {
        if |rel| == 1 {
          assert rel == [name];
        } else {
          var r := rel[1..];
          assert rel == [name] + r;
          AskedUnderChild(n0, excluded, src, name, r);
          AskedFrame(n0, n1, excluded, file, r);
          assert IsPrefix(file, file + r);
        }
      }
    }
  }

  /** A child the matcher excludes is skipped, and nothing beneath it is asked about. */
  lemma SkipStep(n0: map<Path, Node>, n1: map<Path, Node>, excluded: Matcher, src: Path, dest: Path,
                 filenames: seq<string>, i: nat)
    requires i < |filenames| && src + [filenames[i]] in n0
    requires excluded(PathString(src + [filenames[i]]), KindName(n0[src + [filenames[i]]])) == Ok(true)
    requires CopiedUpTo(n0, n1, excluded, src, dest, filenames, i)
    ensures CopiedUpTo(n0, n1, excluded, src, dest, filenames, i + 1)
  {
    StepExcluded(n0, n1, excluded, src, dest, filenames, i);
    AnsweredStepLeaf(n0, excluded, src, filenames, i);
    ChangedStep(n0, n1, n1, dest, filenames, i);
  }

  /** While `dest` was fresh, the destination of the next child is too. */
  lemma ChildDestFresh(n0: map<Path, Node>, n1: map<Path, Node>, dest: Path, filenames: seq<string>, i: nat)
    requires ValidTree(n0) && FreshDest(n0, dest)
    requires dest in n1 && n1[dest].Dir?
    requires Distinct(filenames) && i < |filenames|
    requires ChangedUnder(n0, n1, dest, filenames[..i])
    ensures FreshDest(n1, dest + [filenames[i]])
  {
    var name := filenames[i];
    var nd := dest + [name];
    ChildParent(dest, name);
    assert IsPrefix(dest, nd);
    NothingBelowMissing(n0, dest, nd);
    NotEarlier(filenames, i);
  }

  // ---------------------------------------------------------------------------
  // The operations.

  /** copyFile(from, to): readFileSync, then writeFileSync. */
  method CopyFile(fs: Fs, from: Path, to: Path) returns (err: Option<UtilError>)
    requires fs.Valid()
    modifies fs
    ensures fs.Valid()
    ensures from !in old(fs.nodes) ==> err == Some(FsFailure(NoEntry(PathString(from))))
    ensures from in old(fs.nodes) && old(fs.nodes)[from].Dir? ==> err == Some(FsFailure(IsADirectory(PathString(from))))
    ensures err == None <==>
              from in old(fs.nodes) && old(fs.nodes)[from].File? &&
              to != [] && Parent(to) in old(fs.nodes) && old(fs.nodes)[Parent(to)].Dir? &&
              (to in old(fs.nodes) ==> old(fs.nodes)[to].File?)
    ensures err != None ==> err.value.FsFailure? && fs.nodes == old(fs.nodes)
    ensures err == None ==> fs.nodes == Written(old(fs.nodes), to, old(fs.nodes)[from].content)
  {
    if from !in fs.nodes {
      return Some(FsFailure(NoEntry(PathString(from))));
    }
    if fs.nodes[from].Dir? {
      return Some(FsFailure(IsADirectory(PathString(from))));
    }
    var content := fs.nodes[from].content;
    var e := fs.WriteFile(to, content);
    err := if e == None then None else Some(FsFailure(e.value));
  }

  /** copyUsingMatcher(src, dest, excludeMatcher). The source must not lie
      inside the destination or the other way round (see README). */
  method CopyUsingMatcher(fs: Fs, src: Path, dest: Path, excluded: Matcher) returns (err: Option<UtilError>)
    requires fs.Valid() && Disjoint(src, dest)
    modifies fs
    decreases Below(fs.nodes, src), 2
    ensures fs.Valid()
    ensures src !in old(fs.nodes) ==> err == Some(DoesNotExist(PathString(src))) && fs.nodes == old(fs.nodes)
    ensures src in old(fs.nodes) && old(fs.nodes)[src].File? ==>
              err == Some(MustBeADirectory(PathString(src))) && fs.nodes == old(fs.nodes)
    ensures src in old(fs.nodes) && old(fs.nodes)[src].Dir? && err.Some? ==>
              err.value.MatcherFailure? || err.value.FsFailure?
    ensures src in old(fs.nodes) && old(fs.nodes)[src].Dir? && dest !in old(fs.nodes) &&
            !FreshDest(old(fs.nodes), dest) ==>
              err.Some? && err.value.FsFailure? && fs.nodes == old(fs.nodes)
    ensures Grows(old(fs.nodes), fs.nodes, dest)
    ensures OnlyKept(old(fs.nodes), fs.nodes, excluded, src, dest)
    ensures err == None ==> dest in fs.nodes
    ensures err == None && (dest !in old(fs.nodes) || old(fs.nodes)[dest].Dir?) ==> fs.nodes[dest].Dir?
    ensures err == None ==> CopiedTo(old(fs.nodes), fs.nodes, excluded, src, dest)
    // when the copy succeeds, and why it fails
    ensures err == None ==> AnsweredAll(old(fs.nodes), excluded, src)
    ensures (src in old(fs.nodes) && old(fs.nodes)[src].Dir? && FreshDest(old(fs.nodes), dest) &&
             AnsweredAll(old(fs.nodes), excluded, src)) ==> err == None
    ensures err.Some? && err.value.MatcherFailure? ==> MatcherFailed(old(fs.nodes), excluded, src, err.value.matchError)
    ensures err.Some? && err.value.FsFailure? ==> !FreshDest(old(fs.nodes), dest)
  {
    if src !in fs.nodes {
      return Some(DoesNotExist(PathString(src)));
    }
    if fs.nodes[src].File? {
      return Some(MustBeADirectory(PathString(src)));
    }
    ghost var n0 := fs.nodes;
    var filenames := fs.nodes[src].entries;
    GrowsRefl(n0, dest);
    if dest !in fs.nodes {
      var e := fs.Mkdir(dest);
      if e != None {
        return Some(FsFailure(e.value));
      }
      AddEntryGrows(n0, dest, Dir([]));
    }
    var i := 0;
    while i < |filenames|
      invariant 0 <= i <= |filenames|
      invariant fs.Valid()
      invariant CopiedUpTo(n0, fs.nodes, excluded, src, dest, filenames, i)
    {
      var e := CopyEntry(fs, n0, src, dest, excluded, filenames, i);
      if e != None {
        return e;
      }
      i := i + 1;
    }
    TakeAll(filenames, i);
    FinishCopied(n0, fs.nodes, excluded, src, dest);
    FinishAnswered(n0, excluded, src);
    err := None;
  }

  /** One turn of copyUsingMatcher's loop: stat `src/name`, ask the matcher,
      and copy the entry unless it is excluded. */
  method CopyEntry(fs: Fs, ghost n0: map<Path, Node>, src: Path, dest: Path, excluded: Matcher,
                   filenames: seq<string>, i: nat)
    returns (err: Option<UtilError>)
    requires fs.Valid() && Disjoint(src, dest)
    requires ValidTree(n0) && src in n0 && n0[src] == Dir(filenames) && i < |filenames|
    requires CopiedUpTo(n0, fs.nodes, excluded, src, dest, filenames, i)
    modifies fs
    decreases Below(n0, src), 1
    ensures fs.Valid()
    ensures Shape(n0, fs.nodes, excluded, src, dest)
    ensures err == None ==> CopiedUpTo(n0, fs.nodes, excluded, src, dest, filenames, i + 1)
    ensures err.Some? ==> err.value.MatcherFailure? || err.value.FsFailure?
    ensures err.Some? && err.value.MatcherFailure? ==> MatcherFailed(n0, excluded, src, err.value.matchError)
    ensures err.Some? && err.value.FsFailure? ==> !FreshDest(n0, dest)
    ensures FreshDest(n0, dest) && AnsweredAll(n0, excluded, src) ==> err == None
  {
    var name := filenames[i];
    var file := src + [name];
    var newdest := dest + [name];
    GrowsKeepsSource(n0, fs.nodes, src, dest);
    assert file in n0 && IsPrefix(src, file);
    var isDir := fs.nodes[file].Dir?;
    var kind := if isDir then "dir" else "file";
    PathStringChild(src, name);
    ghost var n1 := fs.nodes;
    if FreshDest(n0, dest) {
      ChildDestFresh(n0, n1, dest, filenames, i);
    }
    var verdict := excluded(PathString(src) + "/" + name, kind);
    assert verdict == excluded(PathString(file), KindName(n0[file]));
    if verdict.Err? {
      FailedHere(n0, excluded, src, name);
      assert !AnsweredAll(n0, excluded, src) by {
        assert Asked(n0, excluded, src, [name]);
      }
      ChangedStep(n0, n1, n1, dest, filenames, i);
      return Some(MatcherFailure(verdict.error));
    }
    if verdict.value {
      SkipStep(n0, n1, excluded, src, dest, filenames, i);
      err := None;
    } else if isDir {
      err := CopyChildDir(fs, n0, src, dest, excluded, filenames, i);
    } else {
      err := CopyChildFile(fs, n0, src, dest, excluded, filenames, i);
    }
  }

  /** copyFile(file, newdest) in copyUsingMatcher's loop, for a child file
      the matcher kept. */
  method CopyChildFile(fs: Fs, ghost n0: map<Path, Node>, src: Path, dest: Path, excluded: Matcher,
                       filenames: seq<string>, i: nat)
    returns (err: Option<UtilError>)
    requires fs.Valid() && Disjoint(src, dest)
    requires ValidTree(n0) && src in n0 && n0[src] == Dir(filenames) && i < |filenames|
    requires SameBeneath(n0, fs.nodes, src)
    requires src + [filenames[i]] in n0 && n0[src + [filenames[i]]].File?
    requires excluded(PathString(src + [filenames[i]]), "file") == Ok(false)
    requires CopiedUpTo(n0, fs.nodes, excluded, src, dest, filenames, i)
    requires FreshDest(n0, dest) ==> FreshDest(fs.nodes, dest + [filenames[i]])
    modifies fs
    ensures fs.Valid()
    ensures Shape(n0, fs.nodes, excluded, src, dest)
    ensures err == None ==> CopiedUpTo(n0, fs.nodes, excluded, src, dest, filenames, i + 1)
    ensures err.Some? ==> err.value.FsFailure? && !FreshDest(n0, dest)
  {
    var name := filenames[i];
    var file := src + [name];
    var newdest := dest + [name];
    ghost var n1 := fs.nodes;
    assert IsPrefix(src, file);
    assert file in n1 && n1[file] == n0[file];
    ChildParent(dest, name);
    err := CopyFile(fs, file, newdest);
    if err == None {
      StepFile(n0, n1, excluded, src, dest, filenames, i);
      AnsweredStepLeaf(n0, excluded, src, filenames, i);
      WrittenGrows(n1, newdest, n0[file].content);
      ChangedStep(n0, n1, fs.nodes, dest, filenames, i);
    } else {
      ChangedStep(n0, n1, n1, dest, filenames, i);
    }
  }

  /** The recursive call of copyUsingMatcher's loop, for a child directory
      the matcher kept. */
  method CopyChildDir(fs: Fs, ghost n0: map<Path, Node>, src: Path, dest: Path, excluded: Matcher,
                      filenames: seq<string>, i: nat)
    returns (err: Option<UtilError>)
    requires fs.Valid() && Disjoint(src, dest)
    requires ValidTree(n0) && src in n0 && n0[src] == Dir(filenames) && i < |filenames|
    requires SameBeneath(n0, fs.nodes, src)
    requires src + [filenames[i]] in n0 && n0[src + [filenames[i]]].Dir?
    requires excluded(PathString(src + [filenames[i]]), "dir") == Ok(false)
    requires CopiedUpTo(n0, fs.nodes, excluded, src, dest, filenames, i)
    requires FreshDest(n0, dest) ==> FreshDest(fs.nodes, dest + [filenames[i]])
    modifies fs
    decreases Below(n0, src), 0
    ensures fs.Valid()
    ensures Shape(n0, fs.nodes, excluded, src, dest)
    ensures err == None ==> CopiedUpTo(n0, fs.nodes, excluded, src, dest, filenames, i + 1)
    ensures err.Some? ==> err.value.MatcherFailure? || err.value.FsFailure?
    ensures err.Some? && err.value.MatcherFailure? ==> MatcherFailed(n0, excluded, src, err.value.matchError)
    ensures err.Some? && err.value.FsFailure? ==> !FreshDest(n0, dest)
    ensures FreshDest(n0, dest) && AnsweredAll(n0, excluded, src) ==> err == None
  {
    var name := filenames[i];
    var file := src + [name];
    ghost var n1 := fs.nodes;
    DisjointChildren(src, dest, name);
    RecursionShrinks(n0, fs.nodes, src, name);
    if AnsweredAll(n0, excluded, src) {
      AnsweredChild(n0, n1, excluded, src, name);
    }
    err := CopyUsingMatcher(fs, file, dest + [name], excluded);
    StepDirFrame(n0, n1, fs.nodes, excluded, src, dest, name);
    ChangedStep(n0, n1, fs.nodes, dest, filenames, i);
    if err == None {
      StepDirCopied(n0, n1, fs.nodes, excluded, src, dest, filenames, i);
      AnsweredStepDir(n0, n1, excluded, src, filenames, i);
    } else if err.value.MatcherFailure? {
      FailedBelow(n0, n1, excluded, src, name, err.value.matchError);
    }
  }

  /** The matcher copyExclude builds: exclusion rules, by default include. */
  function ExcludeMatcher<P>(excludes: seq<Rule<P>>, search: (P, string) -> bool): (r: Matcher) {
    (name: string, ofType: string) => Decide(GetExclusionMatcher(excludes, false), search, name, ofType)
  }

  /** copyExclude(src, dest, excludes). */
  method CopyExclude<P>(fs: Fs, src: Path, dest: Path, excludes: seq<Rule<P>>, search: (P, string) -> bool)
    returns (err: Option<UtilError>)
    requires fs.Valid() && Disjoint(src, dest)
    modifies fs
    ensures fs.Valid()
    ensures src !in old(fs.nodes) ==> err == Some(DoesNotExist(PathString(src))) && fs.nodes == old(fs.nodes)
    ensures src in old(fs.nodes) && old(fs.nodes)[src].File? ==>
              err == Some(MustBeADirectory(PathString(src))) && fs.nodes == old(fs.nodes)
    ensures src in old(fs.nodes) && old(fs.nodes)[src].Dir? && err.Some? ==>
              err.value.MatcherFailure? || err.value.FsFailure?
    ensures src in old(fs.nodes) && old(fs.nodes)[src].Dir? && dest !in old(fs.nodes) &&
            !FreshDest(old(fs.nodes), dest) ==>
              err.Some? && err.value.FsFailure? && fs.nodes == old(fs.nodes)
    ensures Grows(old(fs.nodes), fs.nodes, dest)
    ensures OnlyKept(old(fs.nodes), fs.nodes, ExcludeMatcher(excludes, search), src, dest)
    ensures err == None ==> dest in fs.nodes
    ensures err == None && (dest !in old(fs.nodes) || old(fs.nodes)[dest].Dir?) ==> fs.nodes[dest].Dir?
    ensures err == None ==> CopiedTo(old(fs.nodes), fs.nodes, ExcludeMatcher(excludes, search), src, dest)
    ensures err == None ==> AnsweredAll(old(fs.nodes), ExcludeMatcher(excludes, search), src)
    ensures (src in old(fs.nodes) && old(fs.nodes)[src].Dir? && FreshDest(old(fs.nodes), dest) &&
             AnsweredAll(old(fs.nodes), ExcludeMatcher(excludes, search), src)) ==> err == None
    ensures err.Some? && err.value.MatcherFailure? ==>
              MatcherFailed(old(fs.nodes), ExcludeMatcher(excludes, search), src, err.value.matchError)
    ensures err.Some? && err.value.FsFailure? ==> !FreshDest(old(fs.nodes), dest)
  {
    err := CopyUsingMatcher(fs, src, dest, ExcludeMatcher(excludes, search));
  }

  /** Nothing beneath a directory the matcher excludes is asked about, so a
      matcher that would fail down there cannot fail the copy. */
  lemma ExcludedDirNotAsked(nodes: map<Path, Node>, excluded: Matcher, src: Path, name: string, r: Path)
    requires r != [] && src + [name] in nodes && nodes[src + [name]].Dir?
    requires excluded(PathString(src + [name]), "dir") == Ok(true)
    ensures !Asked(nodes, excluded, src, [name] + r)
  {
    assert ([name] + r)[0] == name;
  }

  /** Well-formed exclusion rules answer every question the copy asks, so
      copyExclude into a fresh destination succeeds. */
  lemma WellFormedRulesAnswerAll<P>(nodes: map<Path, Node>, excludes: seq<Rule<P>>, search: (P, string) -> bool,
                                    src: Path)
    requires excludes != [] && forall j :: 0 <= j < |excludes| ==> WellFormed(excludes[j])
    ensures AnsweredAll(nodes, ExcludeMatcher(excludes, search), src)
  {
    forall rel | Asked(nodes, ExcludeMatcher(excludes, search), src, rel) && src + rel in nodes
      ensures ExcludeMatcher(excludes, search)(PathString(src + rel), KindName(nodes[src + rel])).Ok?
    {
      WellFormedNeverFails(excludes, search, PathString(src + rel), KindName(nodes[src + rel]), false);
    }
  }

  /** With no exclusion rules nothing is ever kept: the matcher fails on the
      first entry it is asked about. */
  lemma NoRulesKeepNothing<P>(nodes: map<Path, Node>, search: (P, string) -> bool, src: Path, rel: Path)
    ensures !Kept(nodes, ExcludeMatcher([], search), src, rel)
  {
  }

  /** An entry whose own path an exclusion rule of type 'any' matches is not
      kept, and neither is anything beneath it. */
  lemma {:induction false} ExcludedPrunesSubtree<P>(nodes: map<Path, Node>, re: P, rest: seq<Rule<P>>,
                                                    search: (P, string) -> bool, src: Path, rel: Path, j: nat)
    requires 0 < j <= |rel|
    requires search(re, PathString(src + rel[..j]))
    ensures !Kept(nodes, ExcludeMatcher([Bare(re)] + rest, search), src, rel)
    decreases |rel|
  {
    var c := src + [rel[0]];
    if j == 1 {
      assert src + rel[..1] == c;
      BareIsExclusionShorthand(re, rest, search, PathString(c), "dir", false);
      BareIsExclusionShorthand(re, rest, search, PathString(c), "file", false);
    } else {
      assert c + rel[1..][..j - 1] == src + rel[..j];
      ExcludedPrunesSubtree(nodes, re, rest, search, c, rel[1..], j - 1);
    }
  }
}
