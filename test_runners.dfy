/**
 * The test runners `run_unittests` and `run_doctests` as seen from the
 * monitor: which module a test file is loaded as, how the framework's counts
 * become a (green, total, log) triple, and what `log_exceptions` turns an
 * escaping exception into.
 */
module TestRunners {
  import opened Values
  import opened ModuleNames

  /** `run_unittests` or `run_doctests`. */
  datatype Adapter = Unittests | Doctests

  /** An exception raised inside a runner: whether it is a `ValueError`, and its formatted traceback. */
  datatype Exception = Exception(isValueError: bool, traceback: string)

  /**
   * What the test framework does with a module: build a suite and run it,
   * giving the result's counts and the runner's log, or raise while building
   * the suite, or raise while running it.
   */
  datatype FrameworkOutcome =
    | Ran(testsRun: nat, failures: nat, errors: nat, log: string)
    | LoadRaised(e: Exception)
    | RunRaised(e: Exception)

  /**
   * What a runner needs from the outside world: the working directory,
   * `os.path.relpath(path, start)`, and the test framework's verdict on a
   * module of a given name.
   */
  datatype Environment = Environment(
    cwd: Path,
    relpath: (Path, Path) -> string,
    framework: (Adapter, string) -> FrameworkOutcome)

  /** A test job: the root the module name is taken relative to, and the file. */
  type Job = (Path, Path)

  /** `(green, total, log)`: tests passed, tests run, and the log. */
  datatype RunResult = RunResult(green: Complex, total: Complex, log: string)

  /** What `log_exceptions` returns when the wrapped runner raises: no test passed, `1j` tests run, and the traceback. */
  function LogExceptions(e: Exception): RunResult {
    RunResult(Real(0), ErrorMarker, e.traceback)
  }

  /** `file_name_to_module(root, file_path)`. */
  function ModuleOf(env: Environment, job: Job): string {
    FileNameToModule(env.relpath(job.1, job.0))
  }

  /** The log `run_doctests` gives for a module without doctests. */
  function NoDoctestsLog(name: string): string {
    "No doctests found in:'" + name + "'\n"
  }

  /** Whether an exception leaves the runner, to be caught by `log_exceptions`. */
  predicate Escapes(adapter: Adapter, outcome: FrameworkOutcome) {
    match outcome
    case Ran(_, _, _, _) => false
    case LoadRaised(e) => !(adapter == Doctests && e.isValueError)
    case RunRaised(_) => true
  }

  /**
   * A runner wrapped by `log_exceptions`. The green count is never complex;
   * the total carries `1j` exactly when an exception escaped, and then no
   * test is counted at all.
   */
  function RunAdapter(adapter: Adapter, env: Environment, job: Job): (r: RunResult)
    ensures r.green.im == 0
    ensures r.total.im == if Escapes(adapter, env.framework(adapter, ModuleOf(env, job))) then 1 else 0
    ensures Escapes(adapter, env.framework(adapter, ModuleOf(env, job))) ==> r.green.re == 0 && r.total.re == 0
  {
    var name := ModuleOf(env, job);
    match env.framework(adapter, name)
    case Ran(run, failures, errors, log) => RunResult(Real(run - failures - errors), Real(run), log)
    case LoadRaised(e) =>
      if adapter == Doctests && e.isValueError then RunResult(Real(0), Real(0), NoDoctestsLog(name))
      else LogExceptions(e)
    case RunRaised(e) => LogExceptions(e)
  }

  /** A run that completes counts every test that neither failed nor raised as green, and every test run in the total. */
  lemma CompletedRunCounts(adapter: Adapter, env: Environment, job: Job)
    requires env.framework(adapter, ModuleOf(env, job)).Ran?
    ensures var o := env.framework(adapter, ModuleOf(env, job));
      var r := RunAdapter(adapter, env, job);
      r.green.re + o.failures + o.errors == r.total.re == o.testsRun && r.log == o.log
  {
  }

  /** A module that has no doctests counts nothing, is not an error, and says so in the log. */
  lemma ModuleWithoutDoctests(env: Environment, job: Job, e: Exception)
    requires env.framework(Doctests, ModuleOf(env, job)) == LoadRaised(e) && e.isValueError
    ensures RunAdapter(Doctests, env, job) == RunResult(Real(0), Real(0), NoDoctestsLog(ModuleOf(env, job)))
  {
  }

  /** The unittest runner has no such case: any error while loading is reported through `log_exceptions`. */
  lemma UnittestLoadErrorIsLogged(env: Environment, job: Job, e: Exception)
    requires env.framework(Unittests, ModuleOf(env, job)) == LoadRaised(e)
    ensures RunAdapter(Unittests, env, job) == LogExceptions(e)
  {
  }
}
