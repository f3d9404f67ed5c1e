/**
 * The two ways the monitor finds and runs tests: a fixed set of files, and a
 * recursive search through packages. Each runs one adapter over its jobs,
 * in order, and adds up the results.
 */
module TestStrategies {
  import opened Values
  import opened Text
  import opened FileTree
  import opened FileStrategies
  import opened TestRunners

  /**
   * `StaticTestStrategy` (its `file_paths`, already made a set) or
   * `RecursiveRegexpTestStartegy` (a root and the file-name pattern), each
   * with the adapter it runs.
   */
  datatype TestStrategy =
    | StaticTests(filePaths: seq<Path>, adapter: Adapter)
    | RecursiveTests(root: Path, matches: string -> bool, adapter: Adapter)

  /** `StaticTestStrategy(file_paths, test_runner)`: the files become a set, as for change detection. */
  function NewStaticTests(paths: seq<Path>, adapter: Adapter): (t: TestStrategy)
    ensures t.StaticTests? && t.adapter == adapter
    ensures NoDuplicates(t.filePaths) && Elements(t.filePaths) == Elements(paths)
  {
    StaticTests(Dedup(paths), adapter)
  }

  /** Each path as a job under the same root. */
  function JobsFor(root: Path, paths: seq<Path>): (jobs: seq<Job>)
    ensures |jobs| == |paths|
    ensures forall i :: 0 <= i < |paths| ==> jobs[i] == (root, paths[i])
  {
    seq(|paths|, i requires 0 <= i < |paths| => (root, paths[i]))
  }

  lemma JobsForAppend(root: Path, a: seq<Path>, b: seq<Path>)
    ensures JobsFor(root, a + b) == JobsFor(root, a) + JobsFor(root, b)
  {
  }

  /** The test files of a recursive search: the matching files of the root and of every package reached through packages. */
  function TestFiles(root: Path, matches: string -> bool, tree: map<Path, Dir>): seq<Path> {
    Collect(WalkRoot(tree, root, true), matches)
  }

  /** A test file lies in the root or in a package, and is one of its directory's matching files. */
  lemma TestFilesIff(root: Path, matches: string -> bool, tree: map<Path, Dir>, p: Path)
    ensures p in TestFiles(root, matches, tree) <==>
      var es := WalkRoot(tree, root, true);
      exists i, f :: 0 <= i < |es| && f in es[i].1.files && matches(f) && p == JoinPath(es[i].0, f)
  {
    CollectIff(WalkRoot(tree, root, true), matches, p);
  }

  /** A test file never lies in a directory that is not a package, the root apart. */
  lemma TestFilesLieInPackages(root: Path, matches: string -> bool, tree: map<Path, Dir>, i: nat)
    requires root in tree && 1 <= i < |Walk(root, tree[root], true)|
    ensures IsPackage(Walk(root, tree[root], true)[i].1)
  {
    PrunedWalkVisitsOnlyPackages(root, tree[root]);
  }

  /** Every test file is also a file the recursive change detection watches, if the patterns agree. */
  lemma TestFilesAreWatched(root: Path, matches: string -> bool, tree: map<Path, Dir>, p: Path)
    requires p in TestFiles(root, matches, tree)
    ensures p in Collect(WalkRoot(tree, root, false), matches)
  {
    TestFilesIff(root, matches, tree, p);
    var es := WalkRoot(tree, root, true);
    var i, f :| 0 <= i < |es| && f in es[i].1.files && matches(f) && p == JoinPath(es[i].0, f);
    PrunedWalkWithinFullWalk(root, tree[root]);
    var all := WalkRoot(tree, root, false);
    assert es[i] in all;
    var k :| 0 <= k < |all| && all[k] == es[i];
    CollectIff(all, matches, p);
  }

  /**
   * `find_tests`: walk the tree top-down from `root`; in each directory drop
   * the sub-folders that are not packages, so that the walk does not go
   * into them, and take every file whose name full-matches as a job.
   * `pending` holds the directories the walk has still to visit, in order.
   */
  method FindTests(root: Path, matches: string -> bool, tree: map<Path, Dir>) returns (jobs: seq<Job>)
    ensures jobs == JobsFor(root, TestFiles(root, matches, tree))
  {
    jobs := [];
    if root !in tree {
      return;
    }
    var pending: seq<Entry> := [(root, tree[root])];
    ghost var visited: seq<Entry> := [];
    assert WalkAll(pending, true) == Walk(root, tree[root], true) by {
      assert pending[1..] == [];
    }
    while pending != []
      invariant visited + WalkAll(pending, true) == Walk(root, tree[root], true)
      invariant jobs == JobsFor(root, Collect(visited, matches))
      decreases |WalkAll(pending, true)|
    {
      var (path, d) := pending[0];
      var folders := Packages(d.subdirs);
      var found := MatchingJobs(root, path, d.files, matches);
      JobsForAppend(root, Collect(visited, matches), MatchingFiles(path, d.files, matches));
      CollectSnoc(visited, (path, d), matches);
      WalkStep(pending, true);
      var next := Children(path, folders) + pending[1..];
      assert visited + WalkAll(pending, true) == (visited + [(path, d)]) + WalkAll(next, true);
      jobs := jobs + found;
      visited := visited + [(path, d)];
      pending := next;
    }
    assert visited == Walk(root, tree[root], true);
  }

  /** The folders `find_tests` leaves in the walk's list: it removes every one that is not a package. */
  method Packages(folders: seq<Dir>) returns (kept: seq<Dir>)
    ensures kept == Kept(folders, true)
  {
    kept := [];
    for i := 0 to |folders|
      invariant kept == Kept(folders[..i], true)
    {
      assert folders[..i + 1] == folders[..i] + [folders[i]];
      KeptAppend(folders[..i], folders[i], true);
      if IsPackage(folders[i]) {
        kept := kept + [folders[i]];
      }
    }
    assert folders[..|folders|] == folders;
  }

  /** The jobs for the files of one directory of the walk whose name full-matches. */
  method MatchingJobs(root: Path, path: Path, files: seq<string>, matches: string -> bool) returns (found: seq<Job>)
    ensures found == JobsFor(root, MatchingFiles(path, files, matches))
  {
    found := [];
    for j := 0 to |files|
      invariant found == JobsFor(root, MatchingFiles(path, files[..j], matches))
    {
      assert files[..j + 1][..j] == files[..j];
      if matches(files[j]) {
        JobsForAppend(root, MatchingFiles(path, files[..j], matches), [JoinPath(path, files[j])]);
        found := found + [(root, JoinPath(path, files[j]))];
      }
    }
    assert files[..|files|] == files;
  }

  /** The jobs of a strategy: its files under the working directory, or the test files under its root. */
  function Jobs(t: TestStrategy, env: Environment, tree: map<Path, Dir>): seq<Job> {
    match t
    case StaticTests(paths, _) => JobsFor(env.cwd, paths)
    case RecursiveTests(root, matches, _) => JobsFor(root, TestFiles(root, matches, tree))
  }

  /** `pool.map(test_runner, jobs)`: one result per job, in job order. */
  function Results(jobs: seq<Job>, adapter: Adapter, env: Environment): (rs: seq<RunResult>)
    ensures |rs| == |jobs|
    ensures forall i :: 0 <= i < |jobs| ==> rs[i] == RunAdapter(adapter, env, jobs[i])
  {
    seq(|jobs|, i requires 0 <= i < |jobs| => RunAdapter(adapter, env, jobs[i]))
  }

  function SumGreen(rs: seq<RunResult>): Complex {
    if rs == [] then Real(0) else SumGreen(rs[..|rs| - 1]).Plus(rs[|rs| - 1].green)
  }

  function SumTotal(rs: seq<RunResult>): Complex {
    if rs == [] then Real(0) else SumTotal(rs[..|rs| - 1]).Plus(rs[|rs| - 1].total)
  }

  /** `"file:%s\n%s" % (path, log)` for each job and its result. */
  function LogEntries(jobs: seq<Job>, rs: seq<RunResult>): (entries: seq<string>)
    requires |jobs| == |rs|
    ensures |entries| == |rs|
  {
    seq(|rs|, i requires 0 <= i < |rs| => "file:" + jobs[i].1 + "\n" + rs[i].log)
  }

  /** The triple a strategy returns for its jobs and their results. */
  function Aggregate(jobs: seq<Job>, rs: seq<RunResult>): RunResult
    requires |jobs| == |rs|
  {
    RunResult(SumGreen(rs), SumTotal(rs), Join("\n", LogEntries(jobs, rs)))
  }

  /** What `run_tests` of a strategy returns; its argument is ignored. */
  function StrategyResult(t: TestStrategy, env: Environment, tree: map<Path, Dir>): RunResult {
    var jobs := Jobs(t, env, tree);
    Aggregate(jobs, Results(jobs, t.adapter, env))
  }

  /** The loop that adds up the results and collects one log entry per job. */
  method AggregateResults(jobs: seq<Job>, rs: seq<RunResult>) returns (r: RunResult)
    requires |jobs| == |rs|
    ensures r == Aggregate(jobs, rs)
  {
    var allGreen, allTotal := Real(0), Real(0);
    var loggs: seq<string> := [];
    for i := 0 to |rs|
      invariant allGreen == SumGreen(rs[..i])
      invariant allTotal == SumTotal(rs[..i])
      invariant loggs == LogEntries(jobs[..i], rs[..i])
    {
      assert rs[..i + 1][..i] == rs[..i];
      allGreen := allGreen.Plus(rs[i].green);
      allTotal := allTotal.Plus(rs[i].total);
      loggs := loggs + ["file:" + jobs[i].1 + "\n" + rs[i].log];
    }
    assert rs[..|rs|] == rs && jobs[..|jobs|] == jobs;
    r := RunResult(allGreen, allTotal, Join("\n", loggs));
  }

  /** `run_tests` of either strategy: make the jobs, run the adapter on each, add up. */
  method RunTests(t: TestStrategy, env: Environment, tree: map<Path, Dir>) returns (r: RunResult)
    ensures r == StrategyResult(t, env, tree)
  {
    var jobs: seq<Job>;
    match t {
      case StaticTests(paths, _) =>
        jobs := [];
        for i := 0 to |paths|
          invariant jobs == JobsFor(env.cwd, paths[..i])
        {
          assert paths[..i + 1] == paths[..i] + [paths[i]];
          JobsForAppend(env.cwd, paths[..i], [paths[i]]);
          jobs := jobs + [(env.cwd, paths[i])];
        }
        assert paths[..|paths|] == paths;
      case RecursiveTests(root, matches, _) =>
        jobs := FindTests(root, matches, tree);
    }
    var results := Results(jobs, t.adapter, env);
    r := AggregateResults(jobs, results);
  }

  lemma {:induction false} SumsAppend(a: seq<RunResult>, b: seq<RunResult>)
    ensures SumGreen(a + b) == SumGreen(a).Plus(SumGreen(b))
    ensures SumTotal(a + b) == SumTotal(a).Plus(SumTotal(b))
  {
    if b == [] {
      assert a + b == a;
    } else {
      var n := |b| - 1;
      var r := b[n];
      assert b == b[..n] + [r];
      assert a + b == (a + b[..n]) + [r];
      SumsAppend(a, b[..n]);
      SumsSnoc(a + b[..n], r);
      SumsSnoc(b[..n], r);
    }
  }

  lemma SumsSnoc(rs: seq<RunResult>, r: RunResult)
    ensures SumGreen(rs + [r]) == SumGreen(rs).Plus(r.green)
    ensures SumTotal(rs + [r]) == SumTotal(rs).Plus(r.total)
  {
    assert (rs + [r])[..|rs|] == rs;
  }

  /**
   * A file whose runner raised adds exactly `1j` to the total and nothing to
   * the green count: the other files' counts are summed as if it were not
   * there.
   */
  lemma ErrorAddsOnlyTheMarker(before: seq<RunResult>, after: seq<RunResult>, e: Exception)
    ensures SumGreen(before + [LogExceptions(e)] + after) == SumGreen(before + after)
    ensures SumTotal(before + [LogExceptions(e)] + after) == SumTotal(before + after).Plus(ErrorMarker)
  {
    SumsAppend(before + [LogExceptions(e)], after);
    SumsAppend(before, [LogExceptions(e)]);
    SumsAppend(before, after);
    assert [LogExceptions(e)][..0] == [];
  }

  /** The number of results whose runner raised. */
  function Failing(rs: seq<RunResult>): nat {
    if rs == [] then 0 else Failing(rs[..|rs| - 1]) + (if rs[|rs| - 1].total.im != 0 then 1 else 0)
  }

  /** Adapter results never have a complex green count, and their total carries at most one `1j`. */
  ghost predicate AdapterShaped(rs: seq<RunResult>) {
    forall i :: 0 <= i < |rs| ==> rs[i].green.im == 0 && 0 <= rs[i].total.im <= 1
  }

  lemma ResultsAreAdapterShaped(jobs: seq<Job>, adapter: Adapter, env: Environment)
    ensures AdapterShaped(Results(jobs, adapter, env))
  {
  }

  /** Summed adapter results: the green count stays real and the total's imaginary part counts the failing files. */
  lemma {:induction false} SumsCountFailingFiles(rs: seq<RunResult>)
    requires AdapterShaped(rs)
    ensures SumGreen(rs).im == 0
    ensures SumTotal(rs).im == Failing(rs)
  {
    if rs != [] {
      SumsCountFailingFiles(rs[..|rs| - 1]);
    }
  }

  /** One adapter result per job. */
  lemma StrategyResultCountsFailingJobs(t: TestStrategy, env: Environment, tree: map<Path, Dir>)
    ensures StrategyResult(t, env, tree).green.im == 0
    ensures StrategyResult(t, env, tree).total.im == Failing(Results(Jobs(t, env, tree), t.adapter, env))
  {
    var jobs := Jobs(t, env, tree);
    ResultsAreAdapterShaped(jobs, t.adapter, env);
    SumsCountFailingFiles(Results(jobs, t.adapter, env));
  }
}
