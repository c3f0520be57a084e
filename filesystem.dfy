/**
 * An in-memory directory tree standing for the synchronous `fs` calls of
 * Node.js that the core uses (existsSync, statSync, readdirSync, readFileSync,
 * writeFileSync, mkdirSync, unlinkSync, rmdirSync).
 */
module FileSystem {
  import opened Common

  /** A path as its components below the root directory. */
  type Path = seq<string>

  /** A directory remembers its listing, in the order readdirSync returns it. */
  datatype Node = File(content: string) | Dir(entries: seq<string>)

  datatype FsError =
    | NoEntry(path: string)        // ENOENT
    | NotADirectory(path: string)  // ENOTDIR
    | IsADirectory(path: string)   // EISDIR
    | AlreadyExists(path: string)  // EEXIST

  function Parent(p: Path): (r: Path)
    requires p != []
  {
    p[..|p| - 1]
  }

  function Last(p: Path): (r: string)
    requires p != []
  {
    p[|p| - 1]
  }

  /** The string the source builds with `dir + '/' + name` (or path.join). */
  function PathString(p: Path): (r: string)
    decreases |p|
  {
    if p == [] then "" else PathString(Parent(p)) + "/" + Last(p)
  }

  lemma PathStringChild(p: Path, n: string)
    ensures PathString(p + [n]) == PathString(p) + "/" + n
  {
    assert Parent(p + [n]) == p;
  }

  predicate IsPrefix(p: Path, q: Path) {
    |p| <= |q| && q[..|p|] == p
  }

  /** Neither path lies inside the other. */
  predicate Disjoint(p: Path, q: Path) {
    !IsPrefix(p, q) && !IsPrefix(q, p)
  }

  predicate StrictlyBelow(p: Path, k: Path) {
    |p| < |k| && k[..|p|] == p
  }

  predicate IsDirIn(nodes: map<Path, Node>, p: Path) {
    p in nodes && nodes[p].Dir?
  }

  /** The entries strictly beneath `p`. */
  ghost function Below(nodes: map<Path, Node>, p: Path): (r: set<Path>) {
    set k | k in nodes && StrictlyBelow(p, k)
  }

  lemma PrefixTransitive(p: Path, q: Path, k: Path)
    requires IsPrefix(p, q) && IsPrefix(q, k)
    ensures IsPrefix(p, k)
  {
    assert k[..|p|] == k[..|q|][..|p|];
  }

  lemma ChildPrefix(p: Path, n: string, k: Path)
    requires IsPrefix(p + [n], k)
    ensures IsPrefix(p, k) && |k| > |p| && k[|p|] == n
  {
    assert k[..|p|] == (k[..|p| + 1])[..|p|];
  }

  /** Descending into a listed child strictly shrinks what lies beneath,
      provided the entries beneath the child are old entries. */
  lemma BelowShrinks(old0: map<Path, Node>, now: map<Path, Node>, p: Path, n: string)
    requires p + [n] in old0
    requires forall k :: k in now && StrictlyBelow(p + [n], k) ==> k in old0
    ensures Below(now, p + [n]) < Below(old0, p)
  {
    var c := p + [n];
    forall k | k in Below(now, c) ensures k in Below(old0, p) {
      assert k[..|p|] == k[..|c|][..|p|];
    }
    assert c in Below(old0, p);
    assert c !in Below(now, c);
  }

  /** Every entry but the root is listed by its parent, which is a directory. */
  ghost predicate ParentsList(nodes: map<Path, Node>) {
    forall q, n :: q + [n] in nodes ==> q in nodes && nodes[q].Dir? && n in nodes[q].entries
  }

  /** Every listed name is present. */
  ghost predicate ListedPresent(nodes: map<Path, Node>) {
    forall p, n :: p in nodes && nodes[p].Dir? && n in nodes[p].entries ==> p + [n] in nodes
  }

  /** No listing names an entry twice. */
  ghost predicate ListingsDistinct(nodes: map<Path, Node>) {
    forall p :: p in nodes && nodes[p].Dir? ==> Distinct(nodes[p].entries)
  }

  /** The shape of a real directory tree: a root directory, every other entry
      listed exactly once by its parent directory, every listed name present. */
  ghost predicate ValidTree(nodes: map<Path, Node>) {
    && [] in nodes && nodes[[]].Dir?
    && ParentsList(nodes)
    && ListedPresent(nodes)
    && ListingsDistinct(nodes)
  }

  /** Every ancestor of an entry is present; a proper ancestor is a directory
      that lists the next component on the way down. */
  lemma {:induction false} AncestorPresent(nodes: map<Path, Node>, p: Path, k: Path)
    requires ParentsList(nodes)
    requires k in nodes && IsPrefix(p, k)
    ensures p in nodes
    ensures StrictlyBelow(p, k) ==> nodes[p].Dir? && k[|p|] in nodes[p].entries && p + [k[|p|]] in nodes
    decreases |k| - |p|
  {
    if |k| > |p| {
      var up := k[..|k| - 1];
      assert k == up + [k[|k| - 1]];
      if |up| == |p| {
        assert up == p && k[|p|] == k[|k| - 1];
      } else {
        assert up[..|p|] == k[..|p|];
        AncestorPresent(nodes, p, up);
        assert up[|p|] == k[|p|];
      }
    } else {
      assert k == k[..|p|];
    }
  }

  /** The tree after a new empty directory or file `p` is listed in its parent. */
  function AddEntry(nodes: map<Path, Node>, p: Path, node: Node): (r: map<Path, Node>)
    requires p != [] && Parent(p) in nodes && nodes[Parent(p)].Dir?
  {
    nodes[p := node][Parent(p) := Dir(nodes[Parent(p)].entries + [Last(p)])]
  }

  /** The tree after the leaf `p` is dropped from its parent's listing. */
  function RemoveEntry(nodes: map<Path, Node>, p: Path): (r: map<Path, Node>)
    requires p != [] && Parent(p) in nodes && nodes[Parent(p)].Dir?
  {
    (nodes - {p})[Parent(p) := Dir(RemoveAll(nodes[Parent(p)].entries, Last(p)))]
  }

  /** The tree after writeFileSync(p, content) succeeds: an existing file is
      overwritten in place, a new one is listed last in its parent. */
  function Written(nodes: map<Path, Node>, p: Path, content: string): (r: map<Path, Node>)
    requires p != [] && Parent(p) in nodes && nodes[Parent(p)].Dir?
  {
    if p in nodes then nodes[p := File(content)] else AddEntry(nodes, p, File(content))
  }

  /** Two paths that are both prefixes of a third are comparable. */
  lemma PrefixesComparable(p: Path, q: Path, k: Path)
    requires IsPrefix(p, k) && IsPrefix(q, k)
    ensures IsPrefix(p, q) || IsPrefix(q, p)
  {
    if |p| <= |q| {
      assert q[..|p|] == k[..|q|][..|p|];
    } else {
      assert p[..|q|] == k[..|p|][..|q|];
    }
  }

  /** Paths that differ in their first component below `p` are not nested. */
  lemma NotUnderSibling(p: Path, n: string, rel: Path)
    requires rel != [] && rel[0] != n
    ensures !IsPrefix(p + [n], p + rel)
  {
    assert (p + rel)[|p|] == rel[0];
    assert (p + [n])[|p|] == n;
  }

  lemma ChildParent(q: Path, n: string)
    ensures q + [n] != [] && Parent(q + [n]) == q && Last(q + [n]) == n
  {
  }

  lemma AddEntryParents(nodes: map<Path, Node>, p: Path, node: Node)
    requires ParentsList(nodes)
    requires p != [] && p !in nodes && Parent(p) in nodes && nodes[Parent(p)].Dir?
    requires node.File? || node == Dir([])
    ensures ParentsList(AddEntry(nodes, p, node))
  {
    var m := AddEntry(nodes, p, node);
    assert p == Parent(p) + [Last(p)];
    forall q, n | q + [n] in m ensures q in m && m[q].Dir? && n in m[q].entries {
      if q + [n] == p {
        ChildParent(q, n);
      } else {
        assert q + [n] in nodes;
      }
    }
  }

  lemma AddEntryListed(nodes: map<Path, Node>, p: Path, node: Node)
    requires ListedPresent(nodes)
    requires p != [] && p !in nodes && Parent(p) in nodes && nodes[Parent(p)].Dir?
    requires node.File? || node == Dir([])
    ensures ListedPresent(AddEntry(nodes, p, node))
  {
    var m := AddEntry(nodes, p, node);
    var up := Parent(p);
    forall q, n | q in m && m[q].Dir? && n in m[q].entries ensures q + [n] in m {
      if q == up {
        if n == Last(p) { assert q + [n] == p; }
        else { assert n in nodes[up].entries; }
      } else {
        assert q != p && q in nodes;
      }
    }
  }

  lemma AddEntryDistinct(nodes: map<Path, Node>, p: Path, node: Node)
    requires ListedPresent(nodes) && ListingsDistinct(nodes)
    requires p != [] && p !in nodes && Parent(p) in nodes && nodes[Parent(p)].Dir?
    requires node.File? || node == Dir([])
    ensures ListingsDistinct(AddEntry(nodes, p, node))
  {
    var m := AddEntry(nodes, p, node);
    var up := Parent(p);
    var es := nodes[up].entries;
    assert up + [Last(p)] == p;
    assert Last(p) !in es;
    forall q | q in m && m[q].Dir? ensures Distinct(m[q].entries) {
      if q == up {
        var e2 := es + [Last(p)];
        forall i, j | 0 <= i < j < |e2| ensures e2[i] != e2[j] {
          if j == |es| { assert e2[i] in es; }
        }
      } else if q != p {
        assert q in nodes;
      }
    }
  }

  lemma AddEntryValid(nodes: map<Path, Node>, p: Path, node: Node)
    requires ValidTree(nodes)
    requires p != [] && p !in nodes && Parent(p) in nodes && nodes[Parent(p)].Dir?
    requires node.File? || node == Dir([])
    ensures ValidTree(AddEntry(nodes, p, node))
  {
    AddEntryParents(nodes, p, node);
    AddEntryListed(nodes, p, node);
    AddEntryDistinct(nodes, p, node);
  }

  lemma OverwriteFileValid(nodes: map<Path, Node>, p: Path, content: string)
    requires ValidTree(nodes)
    requires p in nodes && nodes[p].File?
    ensures ValidTree(nodes[p := File(content)])
  {
    var m := nodes[p := File(content)];
    forall q, n | q + [n] in m ensures q in m && m[q].Dir? && n in m[q].entries {
      assert q + [n] in nodes;
    }
    forall q, n | q in m && m[q].Dir? && n in m[q].entries ensures q + [n] in m {
      assert q in nodes && q != p;
    }
    forall q | q in m && m[q].Dir? ensures Distinct(m[q].entries) {
      assert q in nodes && q != p;
    }
  }

  lemma RemoveEntryParentOf(nodes: map<Path, Node>, p: Path, q: Path, n: string)
    requires ParentsList(nodes)
    requires p != [] && p in nodes && (nodes[p].File? || nodes[p] == Dir([]))
    requires Parent(p) in nodes && nodes[Parent(p)].Dir?
    requires q + [n] in nodes && q + [n] != p
    ensures var m := RemoveEntry(nodes, p);
      q in m && m[q].Dir? && n in m[q].entries
  {
    var up := Parent(p);
    assert p == up + [Last(p)];
    assert n in nodes[q].entries;
    assert q != p;
    if q == up {
      assert n != Last(p);
      assert n in RemoveAll(nodes[up].entries, Last(p));
    }
  }

  lemma RemoveEntryParents(nodes: map<Path, Node>, p: Path)
    requires ParentsList(nodes)
    requires p != [] && p in nodes && (nodes[p].File? || nodes[p] == Dir([]))
    ensures Parent(p) in nodes && nodes[Parent(p)].Dir?
    ensures ParentsList(RemoveEntry(nodes, p))
  {
    assert p == Parent(p) + [Last(p)];
    var m := RemoveEntry(nodes, p);
    forall q, n | q + [n] in m ensures q in m && m[q].Dir? && n in m[q].entries {
      RemoveEntryParentOf(nodes, p, q, n);
    }
  }

  lemma RemoveEntryListed(nodes: map<Path, Node>, p: Path)
    requires ParentsList(nodes) && ListedPresent(nodes)
    requires p != [] && p in nodes && (nodes[p].File? || nodes[p] == Dir([]))
    requires Parent(p) in nodes && nodes[Parent(p)].Dir?
    ensures ListedPresent(RemoveEntry(nodes, p))
  {
    var up := Parent(p);
    var m := RemoveEntry(nodes, p);
    forall q, n | q in m && m[q].Dir? && n in m[q].entries ensures q + [n] in m {
      assert q in nodes;
      ChildParent(q, n);
      if q == up {
        assert n in nodes[up].entries && n != Last(p);
      } else if q != p {
        assert n in nodes[q].entries;
      }
    }
  }

  lemma RemoveEntryValid(nodes: map<Path, Node>, p: Path)
    requires ValidTree(nodes)
    requires p != [] && p in nodes && (nodes[p].File? || nodes[p] == Dir([]))
    ensures Parent(p) in nodes && nodes[Parent(p)].Dir?
    ensures ValidTree(RemoveEntry(nodes, p))
  {
    RemoveEntryParents(nodes, p);
    RemoveEntryListed(nodes, p);
    var m := RemoveEntry(nodes, p);
    forall q | q in m && m[q].Dir? ensures Distinct(m[q].entries) {
      assert q in nodes;
    }
  }

  class Fs {
    var nodes: map<Path, Node>

    ghost predicate Valid()
      reads this
    {
      ValidTree(nodes)
    }

    constructor (initial: map<Path, Node>)
      requires ValidTree(initial)
      ensures Valid() && nodes == initial
    {
      nodes := initial;
    }

    /** mkdirSync(p): fails when p exists or its parent is not a directory. */
    method Mkdir(p: Path) returns (err: Option<FsError>)
      requires Valid()
      modifies this
      ensures Valid()
      ensures p == [] || p in old(nodes) ==> err == Some(AlreadyExists(PathString(p)))
      ensures p != [] && p !in old(nodes) && Parent(p) !in old(nodes) ==> err == Some(NoEntry(PathString(p)))
      ensures p != [] && p !in old(nodes) && Parent(p) in old(nodes) && old(nodes)[Parent(p)].File? ==>
                err == Some(NotADirectory(PathString(p)))
      ensures err != None ==> nodes == old(nodes)
      ensures err == None <==> p != [] && p !in old(nodes) && Parent(p) in old(nodes) && old(nodes)[Parent(p)].Dir?
      ensures err == None ==> nodes == AddEntry(old(nodes), p, Dir([]))
    {
      if p == [] || p in nodes {
        return Some(AlreadyExists(PathString(p)));
      }
      if Parent(p) !in nodes {
        return Some(NoEntry(PathString(p)));
      }
      if nodes[Parent(p)].File? {
        return Some(NotADirectory(PathString(p)));
      }
      AddEntryValid(nodes, p, Dir([]));
      nodes := AddEntry(nodes, p, Dir([]));
      err := None;
    }

    /** writeFileSync(p, content): creates or overwrites a file. */
    method WriteFile(p: Path, content: string) returns (err: Option<FsError>)
      requires Valid()
      modifies this
      ensures Valid()
      ensures err == None <==>
                p != [] && Parent(p) in old(nodes) && old(nodes)[Parent(p)].Dir? &&
                (p in old(nodes) ==> old(nodes)[p].File?)
      ensures err != None ==> nodes == old(nodes)
      ensures err == None ==> nodes == Written(old(nodes), p, content)
    {
      if p == [] || (p in nodes && nodes[p].Dir?) {
        return Some(IsADirectory(PathString(p)));
      }
      if Parent(p) !in nodes {
        return Some(NoEntry(PathString(p)));
      }
      if nodes[Parent(p)].File? {
        return Some(NotADirectory(PathString(p)));
      }
      err := None;
      if p in nodes {
        OverwriteFileValid(nodes, p, content);
        nodes := nodes[p := File(content)];
      } else {
        AddEntryValid(nodes, p, File(content));
        nodes := AddEntry(nodes, p, File(content));
      }
    }

    /** unlinkSync(p) on a file. */
    method Unlink(p: Path)
      requires Valid() && p != [] && p in nodes && nodes[p].File?
      modifies this
      ensures Valid()
      ensures Parent(p) in old(nodes) && old(nodes)[Parent(p)].Dir?
      ensures nodes == RemoveEntry(old(nodes), p)
    {
      RemoveEntryValid(nodes, p);
      nodes := RemoveEntry(nodes, p);
    }

    /** rmdirSync(p) on an empty directory. */
    method Rmdir(p: Path)
      requires Valid() && p != [] && p in nodes && nodes[p] == Dir([])
      modifies this
      ensures Valid()
      ensures Parent(p) in old(nodes) && old(nodes)[Parent(p)].Dir?
      ensures nodes == RemoveEntry(old(nodes), p)
    {
      RemoveEntryValid(nodes, p);
      nodes := RemoveEntry(nodes, p);
    }
  }
}
