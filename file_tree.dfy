/**
 * The directory tree the monitor looks at, and the order in which a top-down
 * `os.walk` visits it. A strategy that prunes keeps, below the root, only the
 * sub-directories that are packages (that hold an `__init__.py`).
 */
module FileTree {
  import opened Values

  /** A directory as a walk sees it: its name, its file names and its sub-directories, in listing order. */
  datatype Dir = Dir(name: string, files: seq<string>, subdirs: seq<Dir>)

  /**
   * What the monitor can observe of the disk at one moment: the fingerprint
   * `DefaultHasher` gives each file it can `stat`, and the directory found at
   * each path that is a directory.
   */
  datatype FileSystem = FileSystem(stat: map<Path, Hash>, tree: map<Path, Dir>)

  /** One step of the walk: the path of a directory and the directory found there. */
  type Entry = (Path, Dir)

  /** `os.path.join(path, name)`. */
  function JoinPath(path: Path, name: string): Path {
    path + "/" + name
  }

  /** `os.path.isfile(os.path.join(path, folder, "__init__.py"))`. */
  predicate IsPackage(d: Dir) {
    "__init__.py" in d.files
  }

  /** Whether a walk goes down into `d`: always, unless it prunes non-packages. */
  predicate Descends(d: Dir, prune: bool) {
    !prune || IsPackage(d)
  }

  /** The directories of `ds` a walk goes down into, in listing order. */
  function Kept(ds: seq<Dir>, prune: bool): (kept: seq<Dir>)
    ensures forall d :: d in kept <==> d in ds && Descends(d, prune)
  {
    if ds == [] then []
    else Kept(ds[..|ds| - 1], prune) + (if Descends(ds[|ds| - 1], prune) then [ds[|ds| - 1]] else [])
  }

  /** The walk entries for the directories `ds` found in `path`. */
  function Children(path: Path, ds: seq<Dir>): (es: seq<Entry>)
    ensures |es| == |ds|
    ensures forall i :: 0 <= i < |ds| ==> es[i] == (JoinPath(path, ds[i].name), ds[i])
  {
    seq(|ds|, i requires 0 <= i < |ds| => (JoinPath(path, ds[i].name), ds[i]))
  }

  /** The entries a top-down walk of `d`, found at `path`, produces: `d` first, then each kept sub-directory's walk in turn. */
  function Walk(path: Path, d: Dir, prune: bool): (es: seq<Entry>)
    decreases d, 1
  {
    [(path, d)] + WalkUnder(path, d.subdirs, prune)
  }

  function WalkUnder(path: Path, ds: seq<Dir>, prune: bool): seq<Entry>
    decreases ds, 0
  {
    if ds == [] then []
    else
      (if Descends(ds[0], prune) then Walk(JoinPath(path, ds[0].name), ds[0], prune) else [])
      + WalkUnder(path, ds[1..], prune)
  }

  /** The walks of several entries, one after the other. */
  function WalkAll(es: seq<Entry>, prune: bool): seq<Entry> {
    if es == [] then [] else Walk(es[0].0, es[0].1, prune) + WalkAll(es[1..], prune)
  }

  /** The paths of the files among `files`, found in `path`, whose name full-matches, in listing order. */
  function MatchingFiles(path: Path, files: seq<string>, matches: string -> bool): (found: seq<Path>)
    ensures |found| <= |files|
  {
    if files == [] then []
    else
      var name := files[|files| - 1];
      MatchingFiles(path, files[..|files| - 1], matches) + (if matches(name) then [JoinPath(path, name)] else [])
  }

  /** The matching files of every entry, entry by entry. */
  function Collect(es: seq<Entry>, matches: string -> bool): seq<Path> {
    if es == [] then []
    else Collect(es[..|es| - 1], matches) + MatchingFiles(es[|es| - 1].0, es[|es| - 1].1.files, matches)
  }

  /** The walk of a tree: nothing when `root` is not a directory. */
  function WalkRoot(tree: map<Path, Dir>, root: Path, prune: bool): seq<Entry> {
    if root in tree then Walk(root, tree[root], prune) else []
  }

  /** A path is collected exactly when it names a matching file of some entry. */
  lemma {:induction false} MatchingFilesIff(path: Path, files: seq<string>, matches: string -> bool, p: Path)
    ensures p in MatchingFiles(path, files, matches) <==> exists f :: f in files && matches(f) && p == JoinPath(path, f)
  {
    if files != [] {
      var init := files[..|files| - 1];
      MatchingFilesIff(path, init, matches, p);
      assert files == init + [files[|files| - 1]];
    }
  }

  lemma {:induction false} CollectIff(es: seq<Entry>, matches: string -> bool, p: Path)
    ensures p in Collect(es, matches) <==>
      exists i, f :: 0 <= i < |es| && f in es[i].1.files && matches(f) && p == JoinPath(es[i].0, f)
  {
    if es != [] {
      var n := |es| - 1;
      var init := es[..n];
      var (path, d) := es[n];
      CollectIff(init, matches, p);
      MatchingFilesIff(path, d.files, matches, p);
      assert Collect(es, matches) == Collect(init, matches) + MatchingFiles(path, d.files, matches);
      if p in Collect(init, matches) {
        var i, f :| 0 <= i < n && f in init[i].1.files && matches(f) && p == JoinPath(init[i].0, f);
        assert es[i] == init[i];
      } else if p in MatchingFiles(path, d.files, matches) {
        var f :| f in d.files && matches(f) && p == JoinPath(path, f);
        assert f in es[n].1.files && p == JoinPath(es[n].0, f);
      } else {
        forall i, f | 0 <= i < |es| && f in es[i].1.files && matches(f)
          ensures p != JoinPath(es[i].0, f)
        {
          if i < n {
            assert es[i] == init[i];
          }
        }
      }
    }
  }

  lemma CollectSnoc(es: seq<Entry>, e: Entry, matches: string -> bool)
    ensures Collect(es + [e], matches) == Collect(es, matches) + MatchingFiles(e.0, e.1.files, matches)
  {
    assert (es + [e])[..|es|] == es;
  }

  lemma {:induction false} CollectAppend(a: seq<Entry>, b: seq<Entry>, matches: string -> bool)
    ensures Collect(a + b, matches) == Collect(a, matches) + Collect(b, matches)
  {
    if b == [] {
      assert a + b == a;
    } else {
      var n := |b| - 1;
      var e := b[n];
      assert b == b[..n] + [e];
      assert a + b == (a + b[..n]) + [e];
      CollectAppend(a, b[..n], matches);
      CollectSnoc(a + b[..n], e, matches);
      CollectSnoc(b[..n], e, matches);
    }
  }

  lemma {:induction false} KeptAppend(ds: seq<Dir>, d: Dir, prune: bool)
    ensures Kept(ds + [d], prune) == Kept(ds, prune) + (if Descends(d, prune) then [d] else [])
  {
    assert (ds + [d])[..|ds|] == ds;
  }

  lemma {:induction false} WalkAllAppend(a: seq<Entry>, b: seq<Entry>, prune: bool)
    ensures WalkAll(a + b, prune) == WalkAll(a, prune) + WalkAll(b, prune)
  {
    if a != [] {
      assert (a + b)[1..] == a[1..] + b;
      WalkAllAppend(a[1..], b, prune);
    } else {
      assert a + b == b;
    }
  }

  /** Walking under a directory is walking each kept sub-directory's entry in turn. */
  lemma {:induction false} WalkUnderKept(path: Path, ds: seq<Dir>, prune: bool)
    ensures WalkUnder(path, ds, prune) == WalkAll(Children(path, Kept(ds, prune)), prune)
  {
    if ds != [] {
      WalkUnderKept(path, ds[1..], prune);
      KeptFront(ds, prune);
      var head := if Descends(ds[0], prune) then [ds[0]] else [];
      var rest := Kept(ds[1..], prune);
      ChildrenAppend(path, head, rest);
      WalkAllAppend(Children(path, head), Children(path, rest), prune);
      var first := if Descends(ds[0], prune) then Walk(JoinPath(path, ds[0].name), ds[0], prune) else [];
      assert WalkAll(Children(path, head), prune) == first by {
        if Descends(ds[0], prune) {
          assert Children(path, head)[1..] == [];
        }
      }
      calc {
        WalkUnder(path, ds, prune);
        first + WalkUnder(path, ds[1..], prune);
        WalkAll(Children(path, head), prune) + WalkAll(Children(path, rest), prune);
        WalkAll(Children(path, head + rest), prune);
      }
    }
  }

  /** Visiting the first pending entry replaces it by the entries of its kept sub-directories. */
  lemma WalkStep(pending: seq<Entry>, prune: bool)
    requires pending != []
    ensures WalkAll(pending, prune) ==
      [pending[0]] + WalkAll(Children(pending[0].0, Kept(pending[0].1.subdirs, prune)) + pending[1..], prune)
  {
    var (path, d) := pending[0];
    WalkUnderKept(path, d.subdirs, prune);
    WalkAllAppend(Children(path, Kept(d.subdirs, prune)), pending[1..], prune);
  }

  lemma ChildrenAppend(path: Path, a: seq<Dir>, b: seq<Dir>)
    ensures Children(path, a + b) == Children(path, a) + Children(path, b)
  {
  }

  lemma {:induction false} KeptFront(ds: seq<Dir>, prune: bool)
    requires ds != []
    ensures Kept(ds, prune) == (if Descends(ds[0], prune) then [ds[0]] else []) + Kept(ds[1..], prune)
  {
    var n := |ds| - 1;
    var front := if Descends(ds[0], prune) then [ds[0]] else [];
    var last := if Descends(ds[n], prune) then [ds[n]] else [];
    var rest := ds[1..];
    if n == 0 {
      assert ds[..n] == [] && rest == [];
    } else {
      assert rest[..n - 1] == ds[..n][1..] && rest[n - 1] == ds[n];
      calc {
        Kept(ds, prune);
        Kept(ds[..n], prune) + last;
        { KeptFront(ds[..n], prune); assert ds[..n][0] == ds[0]; }
        front + Kept(ds[..n][1..], prune) + last;
        front + (Kept(rest[..n - 1], prune) + last);
        front + Kept(rest, prune);
      }
    }
  }

  /** A pruning walk goes down only into packages: every entry but the first is a package. */
  lemma {:induction false} PrunedWalkVisitsOnlyPackages(path: Path, d: Dir)
    ensures forall i :: 1 <= i < |Walk(path, d, true)| ==> IsPackage(Walk(path, d, true)[i].1)
    decreases d, 1
  {
    PackagesUnder(path, d.subdirs);
  }

  lemma {:induction false} PackagesUnder(path: Path, ds: seq<Dir>)
    ensures forall e :: e in WalkUnder(path, ds, true) ==> IsPackage(e.1)
    decreases ds, 0
  {
    if ds != [] {
      PackagesUnder(path, ds[1..]);
      if IsPackage(ds[0]) {
        var sub := JoinPath(path, ds[0].name);
        PrunedWalkVisitsOnlyPackages(sub, ds[0]);
        forall e | e in Walk(sub, ds[0], true) ensures IsPackage(e.1) {
          var i :| 0 <= i < |Walk(sub, ds[0], true)| && Walk(sub, ds[0], true)[i] == e;
        }
      }
    }
  }

  /** Every entry of a pruning walk is an entry of the full walk. */
  lemma {:induction false} PrunedWalkWithinFullWalk(path: Path, d: Dir)
    ensures forall e :: e in Walk(path, d, true) ==> e in Walk(path, d, false)
    decreases d, 1
  {
    PrunedWithinFullUnder(path, d.subdirs);
  }

  lemma {:induction false} PrunedWithinFullUnder(path: Path, ds: seq<Dir>)
    ensures forall e :: e in WalkUnder(path, ds, true) ==> e in WalkUnder(path, ds, false)
    decreases ds, 0
  {
    if ds != [] {
      PrunedWithinFullUnder(path, ds[1..]);
      PrunedWalkWithinFullWalk(JoinPath(path, ds[0].name), ds[0]);
    }
  }

  /** Every directory of `d`, at any depth, is a package. */
  predicate AllPackages(d: Dir)
    decreases d, 1
  {
    AllPackagesIn(d.subdirs)
  }

  predicate AllPackagesIn(ds: seq<Dir>)
    decreases ds, 0
  {
    ds != [] ==> IsPackage(ds[0]) && AllPackages(ds[0]) && AllPackagesIn(ds[1..])
  }

  /** When every directory below the root is a package, pruning removes nothing. */
  lemma {:induction false} PruningKeepsAllPackages(path: Path, d: Dir)
    requires AllPackages(d)
    ensures Walk(path, d, true) == Walk(path, d, false)
    decreases d, 1
  {
    PruningKeepsAllPackagesIn(path, d.subdirs);
  }

  lemma {:induction false} PruningKeepsAllPackagesIn(path: Path, ds: seq<Dir>)
    requires AllPackagesIn(ds)
    ensures WalkUnder(path, ds, true) == WalkUnder(path, ds, false)
    decreases ds, 0
  {
    if ds != [] {
      PruningKeepsAllPackages(JoinPath(path, ds[0].name), ds[0]);
      PruningKeepsAllPackagesIn(path, ds[1..]);
    }
  }
}
