/**
 * The monitor itself: at every tick it asks each file strategy what changed,
 * and when anything did it runs every test strategy, adds their counts up
 * and keeps one log per strategy.
 */
module Core {
  import opened Values
  import opened Text
  import opened FileTree
  import opened FileStrategies
  import opened TestRunners
  import opened TestStrategies
  import opened Colors

  /** One of the change-detection objects the monitor owns. */
  datatype FileStrategy =
    | Static(s: StaticFileStrategy)
    | Recursive(r: RecursiveRegexpFileStrategy)
  {
    function Obj(): object {
      match this
      case Static(s) => s
      case Recursive(r) => r
    }
  }

  /** What a file strategy's fields hold: the files and fingerprints, or the pairs, of the previous scan. */
  datatype Snapshot =
    | HashList(filePaths: seq<Path>, lastHash: seq<Hash>)
    | PairSet(pares: set<Pare>)

  ghost function SnapshotOf(f: FileStrategy): Snapshot
    reads f.Obj()
  {
    match f
    case Static(s) => HashList(s.filePaths, s.lastHash)
    case Recursive(r) => PairSet(r.pares)
  }

  /**
   * One scan by `f` of the file system `fsys`, from the state `before`: what
   * it reports (None when the scan raised) and the state it leaves.
   */
  ghost predicate Scanned(f: FileStrategy, before: Snapshot, fsys: FileSystem, changed: Option<seq<Path>>, after: Snapshot) {
    match f
    case Static(_) =>
      before.HashList?
      && var hashes := Hashes(before.filePaths, fsys.stat);
      changed == Some(Changed(before.lastHash, hashes, before.filePaths))
      && after == HashList(before.filePaths, hashes)
    case Recursive(r) =>
      before.PairSet?
      && match Pares(r.root, r.matches, fsys)
         case None => changed == None && after == before
         case Some(current) =>
           after == PairSet(current)
           && changed.Some?
           && exists order :: Enumerates(order, SymDiff(current, before.pares)) && changed.value == Firsts(order)
  }

  /**
   * The first `|parts|` strategies of `strategies` scanned `fsys` in order,
   * each from its state in `before`, reporting `parts` and leaving the
   * states in `now`; the other strategies kept their state.
   */
  ghost predicate ScannedUpTo(strategies: seq<FileStrategy>, before: seq<Snapshot>, fsys: FileSystem,
                              parts: seq<seq<Path>>, now: seq<Snapshot>)
    decreases |parts|
  {
    |before| == |now| == |strategies| && |parts| <= |strategies|
    && if parts == [] then now == before
       else
         var i := |parts| - 1;
         ScannedUpTo(strategies, before, fsys, parts[..i], now[i := before[i]])
         && Scanned(strategies[i], before[i], fsys, Some(parts[i]), now[i])
  }

  /** What the strategy-by-strategy reading of `ScannedUpTo` says. */
  ghost predicate EachScanned(strategies: seq<FileStrategy>, before: seq<Snapshot>, fsys: FileSystem,
                              parts: seq<seq<Path>>, now: seq<Snapshot>)
  {
    |before| == |now| == |strategies| && |parts| <= |strategies|
    && (forall i :: 0 <= i < |parts| ==> Scanned(strategies[i], before[i], fsys, Some(parts[i]), now[i]))
    && (forall i :: |parts| <= i < |strategies| ==> now[i] == before[i])
  }

  lemma {:induction false} ScannedUpToEach(strategies: seq<FileStrategy>, before: seq<Snapshot>, fsys: FileSystem,
                                           parts: seq<seq<Path>>, now: seq<Snapshot>)
    requires ScannedUpTo(strategies, before, fsys, parts, now)
    ensures EachScanned(strategies, before, fsys, parts, now)
    decreases |parts|
  {
    if parts != [] {
      var i := |parts| - 1;
      var prior := now[i := before[i]];
      ScannedUpToEach(strategies, before, fsys, parts[..i], prior);
      forall k | 0 <= k < i
        ensures Scanned(strategies[k], before[k], fsys, Some(parts[k]), now[k])
      {
        assert prior[k] == now[k] && parts[..i][k] == parts[k];
      }
    }
  }

  lemma {:induction false} EachScannedUpTo(strategies: seq<FileStrategy>, before: seq<Snapshot>, fsys: FileSystem,
                                           parts: seq<seq<Path>>, now: seq<Snapshot>)
    requires EachScanned(strategies, before, fsys, parts, now)
    ensures ScannedUpTo(strategies, before, fsys, parts, now)
    decreases |parts|
  {
    if parts != [] {
      var i := |parts| - 1;
      var prior := now[i := before[i]];
      forall k | 0 <= k < i
        ensures Scanned(strategies[k], before[k], fsys, Some(parts[..i][k]), prior[k])
      {
        assert prior[k] == now[k] && parts[..i][k] == parts[k];
      }
      EachScannedUpTo(strategies, before, fsys, parts[..i], prior);
    } else {
      assert now == before;
    }
  }

  /** The first `|parts|` strategies scanned, giving `parts`, exactly when each of them did and the others kept their state. */
  lemma ScannedUpToIff(strategies: seq<FileStrategy>, before: seq<Snapshot>, fsys: FileSystem,
                       parts: seq<seq<Path>>, now: seq<Snapshot>)
    ensures ScannedUpTo(strategies, before, fsys, parts, now) <==> EachScanned(strategies, before, fsys, parts, now)
  {
    if ScannedUpTo(strategies, before, fsys, parts, now) {
      ScannedUpToEach(strategies, before, fsys, parts, now);
    }
    if EachScanned(strategies, before, fsys, parts, now) {
      EachScannedUpTo(strategies, before, fsys, parts, now);
    }
  }

  /** One more strategy scanned. */
  lemma ScannedNext(strategies: seq<FileStrategy>, before: seq<Snapshot>, fsys: FileSystem,
                    parts: seq<seq<Path>>, now: seq<Snapshot>, part: seq<Path>, after: Snapshot)
    requires ScannedUpTo(strategies, before, fsys, parts, now) && |parts| < |strategies|
    requires Scanned(strategies[|parts|], before[|parts|], fsys, Some(part), after)
    ensures ScannedUpTo(strategies, before, fsys, parts + [part], now[|parts| := after])
  {
    ScannedUpToIff(strategies, before, fsys, parts, now);
    assert (parts + [part])[..|parts|] == parts;
    assert now[|parts| := after][|parts| := before[|parts|]] == now;
  }

  /**
   * `which_files_has_changed` run over `strategies`: either every strategy
   * scanned and the result is their reports one after the other, or the
   * strategies before the one that raised have scanned, that one and the
   * ones after it keep their state, and there is no result.
   */
  ghost predicate ScannedAll(strategies: seq<FileStrategy>, before: seq<Snapshot>, fsys: FileSystem,
                             changed: Option<seq<Path>>, parts: seq<seq<Path>>, after: seq<Snapshot>)
  {
    |before| == |after| == |strategies| && |parts| <= |strategies|
    && match changed
       case Some(found) =>
         |parts| == |strategies| && ScannedUpTo(strategies, before, fsys, parts, after) && found == Flatten(parts)
       case None =>
         |parts| < |strategies|
         && ScannedUpTo(strategies, before, fsys, parts, after[|parts| := before[|parts|]])
         && Scanned(strategies[|parts|], before[|parts|], fsys, None, after[|parts|])
  }

  /** Scanning again a file system that has not changed since a successful scan reports nothing and keeps the baseline. */
  lemma RescanFindsNothing(f: FileStrategy, before: Snapshot, fsys: FileSystem, first: seq<Path>, middle: Snapshot,
                           second: Option<seq<Path>>, after: Snapshot)
    requires Scanned(f, before, fsys, Some(first), middle)
    requires Scanned(f, middle, fsys, second, after)
    ensures second == Some([]) && after == middle
  {
    match f
    case Static(_) =>
      NothingChangedOnRescan(Hashes(middle.filePaths, fsys.stat), middle.filePaths);
    case Recursive(r) =>
      var current := Pares(r.root, r.matches, fsys).value;
      var order :| Enumerates(order, SymDiff(current, middle.pares)) && second.value == Firsts(order);
      NothingChangedOnRecursiveRescan(order, current);
  }

  /** `list.extend` applied to each part in turn. */
  function Flatten(parts: seq<seq<Path>>): seq<Path> {
    if parts == [] then [] else Flatten(parts[..|parts| - 1]) + parts[|parts| - 1]
  }

  /** The concatenation is empty exactly when every part is. */
  lemma {:induction false} FlattenEmpty(parts: seq<seq<Path>>)
    ensures Flatten(parts) == [] <==> forall i :: 0 <= i < |parts| ==> parts[i] == []
  {
    if parts != [] {
      FlattenEmpty(parts[..|parts| - 1]);
      assert forall i :: 0 <= i < |parts| - 1 ==> parts[..|parts| - 1][i] == parts[i];
    }
  }

  /**
   * Scanning again with every strategy, when the file system has not changed
   * since a scan in which none raised, reports nothing and keeps every
   * baseline: the monitor does not run the tests a second time.
   */
  lemma RescanAllFindsNothing(strategies: seq<FileStrategy>, before: seq<Snapshot>, fsys: FileSystem,
                              found: seq<Path>, parts: seq<seq<Path>>, middle: seq<Snapshot>,
                              changed: Option<seq<Path>>, parts2: seq<seq<Path>>, after: seq<Snapshot>)
    requires ScannedAll(strategies, before, fsys, Some(found), parts, middle)
    requires ScannedAll(strategies, middle, fsys, changed, parts2, after)
    ensures changed == Some([]) && after == middle
  {
    ScannedUpToIff(strategies, before, fsys, parts, middle);
    if changed.None? {
      var j := |parts2|;
      RescanFindsNothing(strategies[j], before[j], fsys, parts[j], middle[j], None, after[j]);
      assert false;
    }
    ScannedUpToIff(strategies, middle, fsys, parts2, after);
    forall k | 0 <= k < |strategies|
      ensures parts2[k] == [] && after[k] == middle[k]
    {
      RescanFindsNothing(strategies[k], before[k], fsys, parts[k], middle[k], Some(parts2[k]), after[k]);
    }
    FlattenEmpty(parts2);
  }

  /** The results of every test strategy, in order. */
  function StrategyResults(strategies: seq<TestStrategy>, env: Environment, tree: map<Path, Dir>): (rs: seq<RunResult>)
    ensures |rs| == |strategies|
  {
    seq(|strategies|, i requires 0 <= i < |strategies| => StrategyResult(strategies[i], env, tree))
  }

  lemma {:induction false} TotalImaginaryPartAtLeast(rs: seq<RunResult>, k: nat)
    requires forall i :: 0 <= i < |rs| ==> rs[i].total.im >= 0
    requires k < |rs|
    ensures SumTotal(rs).im >= rs[k].total.im
  {
    var n := |rs| - 1;
    if k < n {
      TotalImaginaryPartAtLeast(rs[..n], k);
    }
    TotalImaginaryPartNonNegative(rs[..n]);
  }

  lemma {:induction false} TotalImaginaryPartNonNegative(rs: seq<RunResult>)
    requires forall i :: 0 <= i < |rs| ==> rs[i].total.im >= 0
    ensures SumTotal(rs).im >= 0
  {
    if rs != [] {
      TotalImaginaryPartNonNegative(rs[..|rs| - 1]);
    }
  }

  /**
   * When the runner raised for any file of any strategy, the summed counts
   * are complex and the window turns orange, whatever the other files gave.
   */
  lemma FailingFileTurnsWindowOrange(strategies: seq<TestStrategy>, env: Environment, tree: map<Path, Dir>, k: nat, j: nat)
    requires k < |strategies|
    requires var jobs := Jobs(strategies[k], env, tree);
      j < |jobs| && Escapes(strategies[k].adapter, env.framework(strategies[k].adapter, ModuleOf(env, jobs[j])))
    ensures var rs := StrategyResults(strategies, env, tree);
      Classify(SumGreen(rs), SumTotal(rs)) == Orange
  {
    var rs := StrategyResults(strategies, env, tree);
    forall i | 0 <= i < |rs| ensures rs[i].total.im >= 0 {
      StrategyResultCountsFailingJobs(strategies[i], env, tree);
    }
    var t := strategies[k];
    var jobs := Jobs(t, env, tree);
    var results := Results(jobs, t.adapter, env);
    StrategyResultCountsFailingJobs(t, env, tree);
    FailingAtLeastOne(results, j);
    TotalImaginaryPartAtLeast(rs, k);
  }

  lemma {:induction false} FailingAtLeastOne(rs: seq<RunResult>, j: nat)
    requires j < |rs| && rs[j].total.im != 0
    ensures Failing(rs) >= 1
  {
    var n := |rs| - 1;
    if j < n {
      FailingAtLeastOne(rs[..n], j);
    }
  }

  /** `file_strategy.which_files_has_changed()`, whichever kind of strategy it is. */
  method Scan(f: FileStrategy, fsys: FileSystem) returns (changed: Option<seq<Path>>)
    modifies f.Obj()
    ensures Scanned(f, old(SnapshotOf(f)), fsys, changed, SnapshotOf(f))
  {
    match f {
      case Static(s) =>
        var c := s.WhichFilesHasChanged(fsys.stat);
        changed := Some(c);
      case Recursive(r) =>
        ghost var order;
        changed, order := r.WhichFilesHasChanged(fsys);
    }
  }

  /** The log of each result, in order. */
  function Logs(results: seq<RunResult>): (logs: seq<string>)
    ensures |logs| == |results|
    ensures forall i :: 0 <= i < |results| ==> logs[i] == results[i].log
  {
    seq(|results|, i requires 0 <= i < |results| => results[i].log)
  }

  lemma AccumulateStep(results: seq<RunResult>, i: nat, r: RunResult)
    requires i < |results| && results[i] == r
    ensures SumTotal(results[..i + 1]) == SumTotal(results[..i]).Plus(r.total)
    ensures SumGreen(results[..i + 1]) == SumGreen(results[..i]).Plus(r.green)
    ensures Logs(results[..i + 1]) == Logs(results[..i]) + [r.log]
  {
    assert results[..i + 1] == results[..i] + [r];
    SumsSnoc(results[..i], r);
  }

  /** `Pytddmon`: the strategies it was built with, and the outcome of the last test run. */
  class Pytddmon {
    const projectName: string
    const fileStrategies: seq<FileStrategy>
    const testStrategies: seq<TestStrategy>
    var totalTestsRun: Complex
    var totalTestsPassed: Complex
    var lastTestrunTime: real
    var testLoggs: seq<string>

    ghost function Objects(): set<object> {
      set i | 0 <= i < |fileStrategies| :: fileStrategies[i].Obj()
    }

    /** Each file strategy is a separate object. */
    ghost predicate Valid() {
      forall i, j :: 0 <= i < j < |fileStrategies| ==> fileStrategies[i].Obj() != fileStrategies[j].Obj()
    }

    constructor (projectName: string, fileStrategies: seq<FileStrategy>, testStrategies: seq<TestStrategy>)
      requires forall i, j :: 0 <= i < j < |fileStrategies| ==> fileStrategies[i].Obj() != fileStrategies[j].Obj()
      ensures Valid()
      ensures this.projectName == projectName
      ensures this.fileStrategies == fileStrategies && this.testStrategies == testStrategies
      ensures totalTestsRun == Real(0) && totalTestsPassed == Real(0)
      ensures lastTestrunTime == -1.0 && testLoggs == []
    {
      this.projectName := projectName;
      this.fileStrategies := fileStrategies;
      this.testStrategies := testStrategies;
      totalTestsRun := Real(0);
      totalTestsPassed := Real(0);
      lastTestrunTime := -1.0;
      testLoggs := [];
    }

    ghost function Snapshots(): (snapshots: seq<Snapshot>)
      reads Objects()
      ensures |snapshots| == |fileStrategies|
    {
      seq(|fileStrategies|, i requires 0 <= i < |fileStrategies| reads Objects() => SnapshotOf(fileStrategies[i]))
    }

    /** Changing anything but the file strategies leaves their snapshots as they were. */
    twostate lemma SnapshotsKept()
      requires unchanged(Objects())
      ensures Snapshots() == old(Snapshots())
    {
    }

    /** Scanning with the `i`th strategy changes its snapshot only. */
    twostate lemma OnlyOneSnapshotChanged(i: nat)
      requires Valid() && i < |fileStrategies|
      requires unchanged(Objects() - {fileStrategies[i].Obj()})
      ensures Snapshots() == old(Snapshots())[i := SnapshotOf(fileStrategies[i])]
    {
      forall k | 0 <= k < |fileStrategies| && k != i
        ensures SnapshotOf(fileStrategies[k]) == old(SnapshotOf(fileStrategies[k]))
      {
        assert fileStrategies[k].Obj() in Objects() - {fileStrategies[i].Obj()};
      }
    }

    /** `which_files_has_changed`: what every file strategy reports, one after the other, duplicates kept. */
    method WhichFilesHasChanged(fsys: FileSystem) returns (changed: Option<seq<Path>>, ghost parts: seq<seq<Path>>)
      requires Valid()
      modifies Objects()
      ensures ScannedAll(fileStrategies, old(Snapshots()), fsys, changed, parts, Snapshots())
    {
      ghost var before := Snapshots();
      ghost var now := before;
      var found: seq<Path> := [];
      parts := [];
      var i := 0;
      while i < |fileStrategies|
        invariant 0 <= i <= |fileStrategies| && |parts| == i
        invariant found == Flatten(parts)
        invariant Snapshots() == now
        invariant forall k :: i <= k < |fileStrategies| ==> now[k] == before[k]
        invariant ScannedUpTo(fileStrategies, before, fsys, parts, now)
      {
        label Before:
        var c := Scan(fileStrategies[i], fsys);
        OnlyOneSnapshotChanged@Before(i);
        if c.None? {
          ghost var prior := now;
          now := Snapshots();
          assert now[i := before[i]] == prior;
          return None, parts;
        }
        var part := c.value;
        ScannedNext(fileStrategies, before, fsys, parts, now, part, SnapshotOf(fileStrategies[i]));
        now := Snapshots();
        found := found + part;
        parts := parts + [part];
        assert parts[..i] == parts[..|parts| - 1];
        i := i + 1;
      }
      changed := Some(found);
    }

    /** The outcome of a test run: the results' sums, one log per strategy, and the time it took. */
    ghost predicate HasResults(results: seq<RunResult>, elapsed: real)
      reads this
    {
      totalTestsRun == SumTotal(results)
      && totalTestsPassed == SumGreen(results)
      && testLoggs == Logs(results)
      && lastTestrunTime == elapsed
    }

    /**
     * `run_tests`: start again from zero, run every test strategy in order,
     * add up what they count and keep their logs. The clock reading is
     * `elapsed`.
     */
    method RunTests(env: Environment, tree: map<Path, Dir>, elapsed: real)
      modifies this
      ensures HasResults(StrategyResults(testStrategies, env, tree), elapsed)
    {
      ghost var results := StrategyResults(testStrategies, env, tree);
      totalTestsRun := Real(0);
      totalTestsPassed := Real(0);
      testLoggs := [];
      for i := 0 to |testStrategies|
        invariant totalTestsRun == SumTotal(results[..i])
        invariant totalTestsPassed == SumGreen(results[..i])
        invariant testLoggs == Logs(results[..i])
      {
        var r := TestStrategies.RunTests(testStrategies[i], env, tree);
        AccumulateStep(results, i, r);
        totalTestsRun := totalTestsRun.Plus(r.total);
        totalTestsPassed := totalTestsPassed.Plus(r.green);
        testLoggs := testLoggs + [r.log];
      }
      assert results[..|results|] == results;
      lastTestrunTime := elapsed;
    }

    /**
     * `main`, the body of the monitor's loop: scan for changes, and run the
     * tests only when something changed. When a scan raises, no test runs.
     */
    method MainStep(fsys: FileSystem, env: Environment, elapsed: real)
      returns (ghost changed: Option<seq<Path>>, ghost parts: seq<seq<Path>>, ghost after: seq<Snapshot>)
      requires Valid()
      modifies this, Objects()
      ensures after == Snapshots() && ScannedAll(fileStrategies, old(Snapshots()), fsys, changed, parts, after)
      ensures changed.Some? && changed.value != [] ==> HasResults(StrategyResults(testStrategies, env, fsys.tree), elapsed)
      ensures !(changed.Some? && changed.value != []) ==>
        totalTestsRun == old(totalTestsRun) && totalTestsPassed == old(totalTestsPassed)
        && lastTestrunTime == old(lastTestrunTime) && testLoggs == old(testLoggs)
    {
      assert this !in Objects();
      var found;
      found, parts := WhichFilesHasChanged(fsys);
      changed := found;
      after := Snapshots();
      assert ScannedAll(fileStrategies, old(Snapshots()), fsys, changed, parts, after);
      label Scanned:
      if found.Some? && found.value != [] {
        RunTests(env, fsys.tree, elapsed);
      }
      SnapshotsKept@Scanned();
    }

    /** `get_loggs`: the strategies' logs, separated by the delimiter line. */
    function GetLoggs(): (log: string)
      reads this
      ensures testLoggs == [] ==> log == ""
      ensures |testLoggs| == 1 ==> log == testLoggs[0]
      ensures forall k :: 0 < k < |testLoggs| ==>
        log == Join("===Log delemeter===\n", testLoggs[..k]) + "===Log delemeter===\n" + Join("===Log delemeter===\n", testLoggs[k..])
    {
      JoinSplits("===Log delemeter===\n", testLoggs);
      Join("===Log delemeter===\n", testLoggs)
    }
  }
}
