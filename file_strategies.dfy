/**
 * The two ways the monitor notices that files changed between two ticks: a
 * fixed set of files compared by position, and a recursive search whose
 * (path, fingerprint) pairs are compared as sets.
 */
module FileStrategies {
  import opened Values
  import opened FileTree

  // ---------------------------------------------------------------------------
  // A fixed set of files

  /** `set(paths)`: each path once. */
  function Dedup(paths: seq<Path>): (unique: seq<Path>)
    ensures NoDuplicates(unique)
    ensures Elements(unique) == Elements(paths)
  {
    if paths == [] then []
    else
      var init := paths[..|paths| - 1];
      var last := paths[|paths| - 1];
      assert paths == init + [last];
      var u := Dedup(init);
      ElementsAppend(u, [last]);
      ElementsAppend(init, [last]);
      if last in u then u else u + [last]
  }

  /** The fingerprints of the readable files among `paths`, in order; an unreadable file is skipped. */
  function Hashes(paths: seq<Path>, stat: map<Path, Hash>): (hashes: seq<Hash>)
    ensures |hashes| <= |paths|
  {
    if paths == [] then []
    else
      var last := paths[|paths| - 1];
      Hashes(paths[..|paths| - 1], stat) + (if last in stat then [stat[last]] else [])
  }

  /** When every file is readable, the i-th fingerprint is the i-th file's. */
  lemma {:induction false} HashesOfReadableFiles(paths: seq<Path>, stat: map<Path, Hash>)
    requires forall i :: 0 <= i < |paths| ==> paths[i] in stat
    ensures |Hashes(paths, stat)| == |paths|
    ensures forall i :: 0 <= i < |paths| ==> Hashes(paths, stat)[i] == stat[paths[i]]
  {
    if paths != [] {
      HashesOfReadableFiles(paths[..|paths| - 1], stat);
    }
  }

  function Min3(a: nat, b: nat, c: nat): nat {
    if a <= b && a <= c then a else if b <= c then b else c
  }

  /** The paths at the first `n` positions whose old and new fingerprints differ. */
  function ChangedUpTo(last: seq<Hash>, hashes: seq<Hash>, paths: seq<Path>, n: nat): seq<Path>
    requires n <= |last| && n <= |hashes| && n <= |paths|
  {
    if n == 0 then []
    else ChangedUpTo(last, hashes, paths, n - 1) + (if last[n - 1] != hashes[n - 1] then [paths[n - 1]] else [])
  }

  /**
   * What `zip(last_hash, hashes, file_paths)` followed by the comparison
   * reports: positions beyond the shortest of the three are never looked at.
   */
  function Changed(last: seq<Hash>, hashes: seq<Hash>, paths: seq<Path>): seq<Path> {
    ChangedUpTo(last, hashes, paths, Min3(|last|, |hashes|, |paths|))
  }

  lemma {:induction false} ChangedUpToIff(last: seq<Hash>, hashes: seq<Hash>, paths: seq<Path>, n: nat, p: Path)
    requires n <= |last| && n <= |hashes| && n <= |paths|
    ensures p in ChangedUpTo(last, hashes, paths, n) <==> exists i :: 0 <= i < n && last[i] != hashes[i] && paths[i] == p
  {
    if n > 0 {
      ChangedUpToIff(last, hashes, paths, n - 1, p);
    }
  }

  /** A path is reported exactly when, at one of its positions within all three lists, the fingerprints differ. */
  lemma ChangedIff(last: seq<Hash>, hashes: seq<Hash>, paths: seq<Path>, p: Path)
    ensures p in Changed(last, hashes, paths) <==>
      exists i :: 0 <= i < |last| && i < |hashes| && i < |paths| && last[i] != hashes[i] && paths[i] == p
  {
    ChangedUpToIff(last, hashes, paths, Min3(|last|, |hashes|, |paths|), p);
  }

  lemma {:induction false} UnchangedUpTo(hashes: seq<Hash>, paths: seq<Path>, n: nat)
    requires n <= |hashes| && n <= |paths|
    ensures ChangedUpTo(hashes, hashes, paths, n) == []
  {
    if n > 0 {
      UnchangedUpTo(hashes, paths, n - 1);
    }
  }

  /** Comparing fingerprints with themselves reports nothing: a second scan of an untouched set is empty. */
  lemma NothingChangedOnRescan(hashes: seq<Hash>, paths: seq<Path>)
    ensures Changed(hashes, hashes, paths) == []
  {
    UnchangedUpTo(hashes, paths, Min3(|hashes|, |hashes|, |paths|));
  }

  lemma {:induction false} OneDifferenceUpTo(last: seq<Hash>, hashes: seq<Hash>, paths: seq<Path>, k: nat, n: nat)
    requires n <= |last| && n <= |hashes| && n <= |paths|
    requires k < |last| && k < |hashes| && k < |paths|
    requires forall i :: 0 <= i < n && i != k ==> last[i] == hashes[i]
    requires last[k] != hashes[k]
    ensures ChangedUpTo(last, hashes, paths, n) == if k < n then [paths[k]] else []
  {
    if n > 0 {
      OneDifferenceUpTo(last, hashes, paths, k, n - 1);
    }
  }

  /** When every file stays readable and exactly one of them is modified, that file alone is reported. */
  lemma OneFileModified(last: seq<Hash>, hashes: seq<Hash>, paths: seq<Path>, k: nat)
    requires |last| == |hashes| == |paths| && k < |paths|
    requires forall i :: 0 <= i < |paths| && i != k ==> last[i] == hashes[i]
    requires last[k] != hashes[k]
    ensures Changed(last, hashes, paths) == [paths[k]]
  {
    OneDifferenceUpTo(last, hashes, paths, k, |paths|);
  }

  /** The first scan after the file set is chosen reports every file whose fingerprint is not the `-1` placeholder. */
  lemma {:induction false} FirstScanReportsEveryFile(paths: seq<Path>, hashes: seq<Hash>, n: nat)
    requires n <= |paths| && n <= |hashes|
    requires forall i :: 0 <= i < n ==> hashes[i] != Unhashed
    ensures ChangedUpTo(seq(|paths|, _ => Unhashed), hashes, paths, n) == paths[..n]
  {
    if n > 0 {
      FirstScanReportsEveryFile(paths, hashes, n - 1);
      assert paths[..n] == paths[..n - 1] + [paths[n - 1]];
    }
  }

  /**
   * Hence, when every file is readable and no fingerprint is the `-1`
   * placeholder, the first scan after the file set is chosen reports every
   * file, in order.
   */
  lemma FirstScanReportsAllFiles(paths: seq<Path>, stat: map<Path, Hash>)
    requires forall i :: 0 <= i < |paths| ==> paths[i] in stat && stat[paths[i]] != Unhashed
    ensures Changed(seq(|paths|, _ => Unhashed), Hashes(paths, stat), paths) == paths
  {
    var hashes := Hashes(paths, stat);
    HashesOfReadableFiles(paths, stat);
    FirstScanReportsEveryFile(paths, hashes, |paths|);
    assert paths[..|paths|] == paths;
  }

  /**
   * The fingerprints are compared by position, so a file that becomes
   * unreadable shifts every later fingerprint one place: with files a, b, c,
   * a deleted, b untouched and c modified, the scan reports a and b and not c.
   */
  lemma MissingFileShiftsComparison(a: Path, b: Path, c: Path, ha: Hash, hb: Hash, hc: Hash, hc2: Hash)
    requires a != b && a != c && b != c
    requires ha != hb && hb != hc2
    ensures Changed([ha, hb, hc], Hashes([a, b, c], map[b := hb, c := hc2]), [a, b, c]) == [a, b]
  {
    var stat := map[b := hb, c := hc2];
    assert [a, b, c][..2] == [a, b] && [a, b][..1] == [a] && [a][..0] == [];
    assert Hashes([a], stat) == [];
    assert Hashes([a, b], stat) == [hb];
    assert Hashes([a, b, c], stat) == [hb, hc2];
    assert ChangedUpTo([ha, hb, hc], [hb, hc2], [a, b, c], 1) == [a];
  }

  /** `StaticFileStartegy`: a fixed set of files and the fingerprints seen at the previous scan. */
  class StaticFileStrategy {
    var filePaths: seq<Path>
    var lastHash: seq<Hash>

    constructor (paths: seq<Path>)
      ensures NoDuplicates(filePaths)
      ensures Elements(filePaths) == Elements(paths)
      ensures lastHash == seq(|filePaths|, _ => Unhashed)
    {
      filePaths := Dedup(paths);
      lastHash := seq(|Dedup(paths)|, _ => Unhashed);
    }

    /** `change_file_set`: monitor another set of files, none of them fingerprinted yet. */
    method ChangeFileSet(paths: seq<Path>)
      modifies this
      ensures NoDuplicates(filePaths)
      ensures Elements(filePaths) == Elements(paths)
      ensures lastHash == seq(|filePaths|, _ => Unhashed)
    {
      filePaths := Dedup(paths);
      lastHash := seq(|filePaths|, _ => Unhashed);
    }

    /** `hash_files`: the fingerprints of the readable files, in file order. */
    method HashFiles(stat: map<Path, Hash>) returns (hashes: seq<Hash>)
      ensures hashes == Hashes(filePaths, stat)
    {
      hashes := [];
      for i := 0 to |filePaths|
        invariant hashes == Hashes(filePaths[..i], stat)
      {
        assert filePaths[..i + 1][..i] == filePaths[..i];
        if filePaths[i] in stat {
          hashes := hashes + [stat[filePaths[i]]];
        }
      }
      assert filePaths[..|filePaths|] == filePaths;
    }

    /** `which_files_has_changed`: the files whose fingerprint moved since the last scan; the new fingerprints become the baseline. */
    method WhichFilesHasChanged(stat: map<Path, Hash>) returns (changed: seq<Path>)
      modifies this`lastHash
      ensures changed == Changed(old(lastHash), Hashes(filePaths, stat), filePaths)
      ensures lastHash == Hashes(filePaths, stat)
    {
      var hashes := HashFiles(stat);
      var n := Min3(|lastHash|, |hashes|, |filePaths|);
      changed := [];
      for i := 0 to n
        invariant changed == ChangedUpTo(lastHash, hashes, filePaths, i)
      {
        if lastHash[i] != hashes[i] {
          changed := changed + [filePaths[i]];
        }
      }
      lastHash := hashes;
    }
  }

  // ---------------------------------------------------------------------------
  // A recursive search

  /** A (path, fingerprint) pair. */
  type Pare = (Path, Hash)

  /** Each path has at most one fingerprint. */
  ghost predicate OnePairPerPath(pares: set<Pare>) {
    forall x, y :: x in pares && y in pares && x.0 == y.0 ==> x.1 == y.1
  }

  /** The files a recursive search finds: every full-matching file name anywhere below `root`. */
  ghost function FoundFiles(root: Path, matches: string -> bool, fs: FileSystem): set<Path> {
    Elements(Collect(WalkRoot(fs.tree, root, false), matches))
  }

  ghost function PairsOf(paths: set<Path>, stat: map<Path, Hash>): set<Pare> {
    set p | p in paths && p in stat :: (p, stat[p])
  }

  /**
   * `get_pares`: each found file with its fingerprint, or None when one of
   * them cannot be read (the source does not catch that error).
   */
  ghost function Pares(root: Path, matches: string -> bool, fs: FileSystem): Option<set<Pare>> {
    var paths := FoundFiles(root, matches, fs);
    if paths <= fs.stat.Keys then Some(PairsOf(paths, fs.stat)) else None
  }

  /** A pair is recorded exactly when it names a matching file below the root and that file's fingerprint. */
  lemma ParesIff(root: Path, matches: string -> bool, fs: FileSystem, x: Pare)
    requires Pares(root, matches, fs).Some?
    ensures x in Pares(root, matches, fs).value <==>
      var es := WalkRoot(fs.tree, root, false);
      (exists i, f :: 0 <= i < |es| && f in es[i].1.files && matches(f) && x.0 == JoinPath(es[i].0, f))
      && x.0 in fs.stat && x.1 == fs.stat[x.0]
  {
    CollectIff(WalkRoot(fs.tree, root, false), matches, x.0);
  }

  lemma ParesHaveOnePairPerPath(root: Path, matches: string -> bool, fs: FileSystem)
    requires Pares(root, matches, fs).Some?
    ensures OnePairPerPath(Pares(root, matches, fs).value)
  {
  }

  function SymDiff(a: set<Pare>, b: set<Pare>): set<Pare> {
    (a - b) + (b - a)
  }

  /** `order` lists the elements of `s`, each once. */
  ghost predicate Enumerates(order: seq<Pare>, s: set<Pare>) {
    NoDuplicates(order) && Elements(order) == s
  }

  function Firsts(order: seq<Pare>): (paths: seq<Path>)
    ensures |paths| == |order|
  {
    seq(|order|, i requires 0 <= i < |order| => order[i].0)
  }

  /** `lst.count(x)`. */
  function Count<T(==)>(x: T, s: seq<T>): nat {
    if s == [] then 0 else (if s[0] == x then 1 else 0) + Count(x, s[1..])
  }

  ghost function PairsAt(s: set<Pare>, p: Path): set<Pare> {
    set x | x in s && x.0 == p
  }

  /** A path appears in the report once for every pair of the difference that carries it. */
  lemma {:induction false} CountInFirsts(order: seq<Pare>, p: Path)
    requires NoDuplicates(order)
    ensures Count(p, Firsts(order)) == |PairsAt(Elements(order), p)|
  {
    if order != [] {
      var rest := order[1..];
      CountInFirsts(rest, p);
      assert Firsts(order)[1..] == Firsts(rest);
      assert Elements(order) == {order[0]} + Elements(rest);
      assert order[0] !in Elements(rest);
      if order[0].0 == p {
        assert PairsAt(Elements(order), p) == {order[0]} + PairsAt(Elements(rest), p);
      } else {
        assert PairsAt(Elements(order), p) == PairsAt(Elements(rest), p);
      }
    }
  }

  /** A path is reported once for each of its pairs that is in only one of the two scans. */
  lemma TimesReported(order: seq<Pare>, current: set<Pare>, last: set<Pare>, p: Path)
    requires Enumerates(order, SymDiff(current, last))
    ensures Count(p, Firsts(order)) == |PairsAt(current, p) - last| + |PairsAt(last, p) - current|
  {
    CountInFirsts(order, p);
    var added, removed := PairsAt(current, p) - last, PairsAt(last, p) - current;
    assert PairsAt(SymDiff(current, last), p) == added + removed;
    assert added * removed == {};
  }

  /** A file whose fingerprint changed is reported twice: once for its old pair and once for its new one. */
  lemma ReportedTwiceWhenFingerprintChanged(order: seq<Pare>, current: set<Pare>, last: set<Pare>, p: Path, before: Hash, after: Hash)
    requires Enumerates(order, SymDiff(current, last))
    requires OnePairPerPath(current) && OnePairPerPath(last)
    requires (p, before) in last && (p, after) in current && before != after
    ensures Count(p, Firsts(order)) == 2
  {
    TimesReported(order, current, last, p);
    assert PairsAt(current, p) - last == {(p, after)};
    assert PairsAt(last, p) - current == {(p, before)};
  }

  /** A file that appeared is reported once. */
  lemma ReportedOnceWhenAdded(order: seq<Pare>, current: set<Pare>, last: set<Pare>, p: Path, h: Hash)
    requires Enumerates(order, SymDiff(current, last))
    requires OnePairPerPath(current)
    requires (p, h) in current && forall x :: x in last ==> x.0 != p
    ensures Count(p, Firsts(order)) == 1
  {
    TimesReported(order, current, last, p);
    assert PairsAt(current, p) - last == {(p, h)};
    assert PairsAt(last, p) - current == {};
  }

  /** A file that disappeared is reported once. */
  lemma ReportedOnceWhenRemoved(order: seq<Pare>, current: set<Pare>, last: set<Pare>, p: Path, h: Hash)
    requires Enumerates(order, SymDiff(current, last))
    requires OnePairPerPath(last)
    requires (p, h) in last && forall x :: x in current ==> x.0 != p
    ensures Count(p, Firsts(order)) == 1
  {
    TimesReported(order, current, last, p);
    assert PairsAt(current, p) - last == {};
    assert PairsAt(last, p) - current == {(p, h)};
  }

  /** A file with the same pairs in both scans is not reported. */
  lemma NotReportedWhenUnchanged(order: seq<Pare>, current: set<Pare>, last: set<Pare>, p: Path)
    requires Enumerates(order, SymDiff(current, last))
    requires forall h :: (p, h) in current <==> (p, h) in last
    ensures Count(p, Firsts(order)) == 0
  {
    TimesReported(order, current, last, p);
    assert PairsAt(current, p) - last == {};
    assert PairsAt(last, p) - current == {};
  }

  /** A scan right after a scan of the same files reports nothing. */
  lemma NothingChangedOnRecursiveRescan(order: seq<Pare>, pares: set<Pare>)
    requires Enumerates(order, SymDiff(pares, pares))
    ensures Firsts(order) == []
  {
    HeadIsElement(order);
  }

  /** The first components of an enumeration of a set are exactly the paths of its pairs. */
  lemma FirstsOfEnumeration(order: seq<Pare>, pairs: set<Pare>)
    requires Enumerates(order, pairs)
    ensures forall x :: x in pairs ==> x.0 in Firsts(order)
    ensures forall p :: p in Firsts(order) ==> exists h :: (p, h) in pairs
  {
    forall x | x in pairs ensures x.0 in Firsts(order) {
      assert x in Elements(order);
      var i :| 0 <= i < |order| && order[i] == x;
      assert Firsts(order)[i] == x.0;
    }
    forall p | p in Firsts(order) ensures exists h :: (p, h) in pairs {
      var i :| 0 <= i < |order| && Firsts(order)[i] == p;
      assert order[i] in Elements(order);
      assert (p, order[i].1) == order[i];
    }
  }

  /** Taking one more element of `pairs` that was not yet taken keeps the enumeration so far. */
  lemma EnumerationStep(order: seq<Pare>, pairs: set<Pare>, todo: set<Pare>, x: Pare)
    requires todo <= pairs && x in todo
    requires NoDuplicates(order) && Elements(order) == pairs - todo
    ensures NoDuplicates(order + [x]) && Elements(order + [x]) == pairs - (todo - {x})
    ensures Firsts(order + [x]) == Firsts(order) + [x.0]
  {
    ElementsAppend(order, [x]);
    assert x !in Elements(order);
  }

  /** `[path for path, _file_hash in pairs]`: the path of each pair, the pairs taken in some order. */
  method PathsOf(pairs: set<Pare>) returns (paths: seq<Path>, ghost order: seq<Pare>)
    ensures Enumerates(order, pairs)
    ensures paths == Firsts(order)
    ensures forall x :: x in pairs ==> x.0 in paths
    ensures forall p :: p in paths ==> exists h :: (p, h) in pairs
  {
    paths, order := [], [];
    var todo := pairs;
    while todo != {}
      invariant todo <= pairs
      invariant NoDuplicates(order) && Elements(order) == pairs - todo
      invariant paths == Firsts(order)
      decreases |todo|
    {
      var x :| x in todo;
      EnumerationStep(order, pairs, todo, x);
      order := order + [x];
      paths := paths + [x.0];
      todo := todo - {x};
    }
    FirstsOfEnumeration(order, pairs);
  }

  /** The inner loop of `get_pares`: add the full-matching file names of one directory, joined to its path. */
  method AddMatching(paths: set<Path>, path: Path, files: seq<string>, matches: string -> bool) returns (found: set<Path>)
    ensures found == paths + Elements(MatchingFiles(path, files, matches))
  {
    found := paths;
    for j := 0 to |files|
      invariant found == paths + Elements(MatchingFiles(path, files[..j], matches))
    {
      assert files[..j + 1][..j] == files[..j];
      ElementsAppend(MatchingFiles(path, files[..j], matches), if matches(files[j]) then [JoinPath(path, files[j])] else []);
      if matches(files[j]) {
        found := found + {JoinPath(path, files[j])};
      }
    }
    assert files[..|files|] == files;
  }

  /** The loops over the walk in `get_pares`: every full-matching file of every directory, joined to its directory's path. */
  method CollectPaths(es: seq<Entry>, matches: string -> bool) returns (paths: set<Path>)
    ensures paths == Elements(Collect(es, matches))
  {
    paths := {};
    for i := 0 to |es|
      invariant paths == Elements(Collect(es[..i], matches))
    {
      assert es[..i + 1] == es[..i] + [es[i]];
      CollectSnoc(es[..i], es[i], matches);
      ElementsAppend(Collect(es[..i], matches), MatchingFiles(es[i].0, es[i].1.files, matches));
      paths := AddMatching(paths, es[i].0, es[i].1.files, matches);
    }
    assert es[..|es|] == es;
  }

  /** The fingerprinting loop of `get_pares`: each path with its fingerprint, or None at the first path that cannot be read. */
  method Fingerprints(paths: set<Path>, stat: map<Path, Hash>) returns (r: Option<set<Pare>>)
    ensures r == if paths <= stat.Keys then Some(PairsOf(paths, stat)) else None
  {
    var todo := paths;
    var pairs: set<Pare> := {};
    while todo != {}
      invariant todo <= paths
      invariant paths - todo <= stat.Keys
      invariant pairs == PairsOf(paths - todo, stat)
      decreases |todo|
    {
      var p :| p in todo;
      if p !in stat {
        return None;
      }
      pairs := pairs + {(p, stat[p])};
      todo := todo - {p};
    }
    assert paths - todo == paths;
    return Some(pairs);
  }

  /** `RecursiveRegexpFileStartegy`: the files below `root` whose name full-matches, and the pairs seen at the previous scan. */
  class RecursiveRegexpFileStrategy {
    const root: Path
    const matches: string -> bool
    var pares: set<Pare>

    constructor (root: Path, matches: string -> bool)
      ensures this.root == root && this.matches == matches
      ensures pares == {}
    {
      this.root := root;
      this.matches := matches;
      pares := {};
    }

    /** `get_pares`: collect the matching files of every directory of the walk, then fingerprint each. */
    method GetPares(fs: FileSystem) returns (r: Option<set<Pare>>)
      ensures r == Pares(root, matches, fs)
    {
      var paths := CollectPaths(WalkRoot(fs.tree, root, false), matches);
      r := Fingerprints(paths, fs.stat);
    }

    /**
     * `which_files_has_changed`: the path of every pair in exactly one of the
     * previous and the new scan, in the order the difference is enumerated;
     * the new pairs become the baseline. When a found file cannot be read
     * the error escapes and the baseline stays as it was.
     */
    method WhichFilesHasChanged(fs: FileSystem) returns (changed: Option<seq<Path>>, ghost order: seq<Pare>)
      modifies this`pares
      ensures Pares(root, matches, fs).None? ==> changed.None? && pares == old(pares)
      ensures Pares(root, matches, fs).Some? ==>
        pares == Pares(root, matches, fs).value
        && Enumerates(order, SymDiff(pares, old(pares)))
        && changed == Some(Firsts(order))
    {
      var found := GetPares(fs);
      order := [];
      if found.None? {
        return None, order;
      }
      var current := found.value;
      var paths;
      paths, order := PathsOf(SymDiff(current, pares));
      pares := current;
      changed := Some(paths);
    }
  }
}
