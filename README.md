# pytddmon, modelled in Dafny

pytddmon is a small continuous-testing monitor. On every tick of its window it
does three things:

- It asks each of its *file strategies* which files changed since the last tick.
  A static strategy watches a fixed set of files and compares their fingerprints
  position by position. A recursive strategy searches below a root for files whose
  name full-matches a pattern, and compares (path, fingerprint) pairs as sets.
- When anything changed, it runs every *test strategy*. A static strategy runs a
  fixed set of files. A recursive strategy finds test files by walking only
  through packages. Each strategy runs an adapter (unittest or doctest) on every
  file and adds the counts up.
- It colours the window from the summed counts: green, red for exactly one test
  not passing, gray for more, and orange when a runner raised. The colour
  pulses light and dark.

This project models those parts:

| file | module | what it holds |
|---|---|---|
| `values.dfy` | `Values` | paths, options, and the Python numbers (integer real and imaginary parts) used for counts and fingerprints |
| `text.dfy` | `Text` | `sep.join` and `str.split`, and how they relate |
| `module_names.dfy` | `ModuleNames`, `ModuleNameExamples` | `file_name_to_module` after `relpath`, and its documented examples |
| `file_tree.dfy` | `FileTree` | the directory tree, the order of a top-down walk, and pruning to packages |
| `file_strategies.dfy` | `FileStrategies` | `StaticFileStartegy` and `RecursiveRegexpFileStartegy`, each a class with its baseline field |
| `test_runners.dfy` | `TestRunners` | `run_unittests` and `run_doctests` wrapped by `log_exceptions`, over an abstract framework outcome |
| `test_strategies.dfy` | `TestStrategies` | `StaticTestStrategy.run_tests`, `find_tests` and `RecursiveRegexpTestStartegy.run_tests` |
| `color_picker.dfy` | `Colors` | `ColorPicker` as a class, and the per-tick colour step of the window |
| `pytddmon.dfy` | `Core` | the `Pytddmon` class: change detection over all strategies, `run_tests`, `main` and `get_loggs` |

The outside world is passed in as values:

- The disk at one moment is a `FileSystem`. It has a fingerprint for each file
  that can be `stat`ed (a missing entry is the `IOError` Python 3 raises), and the directory found
  at each path.
- The regular-expression full match is a predicate `matches`.
- `os.path.relpath`, the working directory, and the test framework's verdict on a
  module are fields of an `Environment`.
- The clock reading is a parameter, `elapsed`.

Where the source updates fields in place, the model does too:

- `StaticFileStrategy` and `RecursiveRegexpFileStrategy` are classes whose methods
  replace their baselines (`lastHash`, `pares`).
- `ColorPicker` is a class with `color` and `light`.
- `Pytddmon` is a class whose `RunTests` resets and accumulates
  `totalTestsRun`, `totalTestsPassed` and `testLoggs` in a loop.

Each method is proved against a specification function, for example:

- `Changed`, `Hashes` and `Pares` for the file strategies;
- `TestFiles`, `Aggregate` and `StrategyResult` for the test strategies;
- `AfterSetResult` and `Tick` for the colour picker;
- `ScannedAll` and `StrategyResults` for the monitor.

The lemmas state what the monitor promises about those functions.

## Model

| member | source | states |
|---|---|---|
| Text.SplitJoin | pytddmon.py:575-577 | splitting a `sep.join` at the separator gives every part back, when no part contains the separator |
| Text.JoinSplits | pytddmon.py:116-118 | a join with the delimiter is, at every inner boundary, the join of the logs before it, the delimiter, and the join of the logs after it |
| ModuleNames.FileNameToModule | pytddmon.py:570-577 | the module name contains no `/`, `\` or whitespace, and it is empty exactly when the path has at most one component |
| ModuleNames.StrippedWordsAreComponents | pytddmon.py:570-573 | replacing `/`, `\` and `.` by spaces and then `split()` yields exactly the maximal runs of characters that are neither those symbols nor whitespace |
| ModuleNames.RunsKeepEverythingButBreaks | pytddmon.py:573 | the words, put back together, are the input with every break character removed and nothing else lost |
| ModuleNames.JoinedWordsHaveNoBreaks | pytddmon.py:575-577 | joining non-empty words with `.` gives no `/`, `\` or whitespace, and gives "" only for no words |
| ModuleNames.ModuleNameSplitsIntoComponents | pytddmon.py:573-577 | splitting the module name at its dots gives every path component but the last (the extension dropped by `words[:-1]`) |
| ModuleNames.ModuleNameFromComponents | pytddmon.py:570-577 | the module name is the components but the last, joined with dots |
| ModuleNames.TopLevelModule | pytddmon.py:552-555 | `mod.ext` at the root gives `mod` |
| ModuleNames.PackagedModule | pytddmon.py:556-557 | `pkg<sep>mod.ext` gives `pkg.mod`, whichever of `/`, `\`, `.` or whitespace separates them |
| ModuleNames.LeadingBreakIgnored | pytddmon.py:558-561 | a leading `.`, `/` or `\` does not change the module name |
| ModuleNameExamples.ExampleScriptFile | pytddmon.py:552-553 | "pytddmon.pyw" gives "pytddmon" |
| ModuleNameExamples.ExampleModuleFile | pytddmon.py:554-555 | "pytddmon.py" gives "pytddmon" |
| ModuleNameExamples.ExamplePackagedModule | pytddmon.py:556-557 | "tests/pytddmon.py" gives "tests.pytddmon" |
| ModuleNameExamples.ExampleDotSlashPrefix | pytddmon.py:558-559 | "./tests/pytddmon.py" gives "tests.pytddmon" |
| ModuleNameExamples.ExampleWindowsSeparators | pytddmon.py:560-561 | ".\\tests\\pytddmon.py" gives "tests.pytddmon" |
| FileTree.Kept | pytddmon.py:354-359 | the folders left in the walk's list are exactly the listed ones that are packages (all of them when not pruning) |
| FileTree.MatchingFilesIff | pytddmon.py:193-197 | a path is taken from a directory exactly when it joins the directory's path to a listed file name that full-matches |
| FileTree.CollectIff | pytddmon.py:192-197 | a path is collected from a walk exactly when it joins some visited directory's path to one of its full-matching file names |
| FileTree.WalkStep | pytddmon.py:353-359 | visiting the next directory of a walk replaces it by the entries of its kept sub-directories, ahead of the directories still pending |
| FileTree.PrunedWalkVisitsOnlyPackages | pytddmon.py:345-359 | a walk that removes non-package folders visits only packages below the root |
| FileTree.PrunedWalkWithinFullWalk | pytddmon.py:350-359 | every directory the pruning walk visits is also visited by the full walk |
| FileTree.PruningKeepsAllPackages | pytddmon.py:354-359 | when every directory below the root is a package, pruning changes nothing |
| FileStrategies.Dedup | pytddmon.py:151-153 | `set(file_paths)`: no path twice, and the same paths as given |
| FileStrategies.HashesOfReadableFiles | pytddmon.py:168-176 | when every file is readable there is one fingerprint per file, at the file's own position |
| FileStrategies.ChangedIff | pytddmon.py:161-164 | a path is reported exactly when, at one of its positions within all three zipped lists, the old and new fingerprints differ |
| FileStrategies.NothingChangedOnRescan | pytddmon.py:156-166 | comparing fingerprints with themselves reports nothing |
| FileStrategies.OneFileModified | pytddmon.py:156-166 | with every file readable and exactly one modified, only that file is reported |
| FileStrategies.FirstScanReportsEveryFile | pytddmon.py:149-166 | against the all-`-1` history `change_file_set` leaves, every one of the first n positions whose new fingerprint is not `-1` is reported, in order |
| FileStrategies.FirstScanReportsAllFiles | pytddmon.py:149-176 | after `change_file_set`, when every file is readable and no fingerprint is `-1`, the first scan reports every file, in order |
| FileStrategies.MissingFileShiftsComparison | pytddmon.py:161-176 | with files a, b, c where a becomes unreadable and c is modified, the scan reports a and b, not c: the skipped file shifts the positional comparison |
| FileStrategies.StaticFileStrategy.constructor | pytddmon.py:143-146 | the monitored files are the given ones, once each, with one `-1` placeholder per file |
| FileStrategies.StaticFileStrategy.ChangeFileSet | pytddmon.py:149-154 | the new file set, without duplicates, with `last_hash` reset to one `-1` per file |
| FileStrategies.StaticFileStrategy.HashFiles | pytddmon.py:168-176 | the fingerprints of the readable files in file order; unreadable files are skipped |
| FileStrategies.StaticFileStrategy.WhichFilesHasChanged | pytddmon.py:156-166 | reports the positional changes against the previous `last_hash`, which becomes the new fingerprints |
| FileStrategies.ParesIff | pytddmon.py:189-200 | a pair is recorded exactly when it names a full-matching file found by the walk, together with that file's fingerprint |
| FileStrategies.ParesHaveOnePairPerPath | pytddmon.py:189-200 | each path has at most one fingerprint in the pairs |
| FileStrategies.CountInFirsts | pytddmon.py:207-208 | a path occurs in the list of first components as often as it is the path of a pair of the enumerated set |
| FileStrategies.TimesReported | pytddmon.py:204-208 | a path is reported once per pair that carries it in the new pairs and not the old, plus once per such pair in the old and not the new |
| FileStrategies.ReportedTwiceWhenFingerprintChanged | pytddmon.py:204-208 | a file whose fingerprint changed is reported twice |
| FileStrategies.ReportedOnceWhenAdded | pytddmon.py:204-208 | a new file is reported once |
| FileStrategies.ReportedOnceWhenRemoved | pytddmon.py:204-208 | a file that disappeared is reported once |
| FileStrategies.NotReportedWhenUnchanged | pytddmon.py:204-208 | a file with the same fingerprint is not reported |
| FileStrategies.NothingChangedOnRecursiveRescan | pytddmon.py:204-208 | the symmetric difference of a set with itself reports nothing |
| FileStrategies.PathsOf | pytddmon.py:207-208 | lists the path of every pair of the set, each pair once, in some enumeration order |
| FileStrategies.RecursiveRegexpFileStrategy.constructor | pytddmon.py:182-187 | the root and pattern as given, and no pairs yet |
| FileStrategies.AddMatching | pytddmon.py:193-197 | adds to the set the joined path of every full-matching file name of one directory, and nothing else |
| FileStrategies.CollectPaths | pytddmon.py:191-197 | the set built over the whole walk is exactly the paths `Collect` finds, which `CollectIff` characterises |
| FileStrategies.Fingerprints | pytddmon.py:198-200 | every path with its fingerprint when all of them can be read, and no result otherwise |
| FileStrategies.RecursiveRegexpFileStrategy.GetPares | pytddmon.py:189-200 | the set of (path, fingerprint) pairs of the matching files, or None when one cannot be read |
| FileStrategies.RecursiveRegexpFileStrategy.WhichFilesHasChanged | pytddmon.py:202-210 | reports the path of every pair of the symmetric difference and stores the new pairs; when a file cannot be read nothing is stored |
| TestRunners.RunAdapter | pytddmon.py:250-291 | the green count is never complex; the total carries `1j` exactly when an exception escaped the runner, and then both real counts are 0 |
| TestRunners.CompletedRunCounts | pytddmon.py:262-266 | a completed run counts `testsRun - failures - errors` as green, `testsRun` as total, and returns the runner's log |
| TestRunners.ModuleWithoutDoctests | pytddmon.py:277-284 | a module without doctests gives `(0, 0, "No doctests found in:'<module>'\n")` |
| TestRunners.UnittestLoadErrorIsLogged | pytddmon.py:236-239 | for unittest any error while loading goes through `log_exceptions`: `(0, 1j, traceback)` |
| TestStrategies.NewStaticTests | pytddmon.py:303-313 | the test files are the given ones, once each, run by the given adapter |
| TestStrategies.TestFilesIff | pytddmon.py:350-375 | a test file is exactly a full-matching file of a directory the pruning walk visits |
| TestStrategies.TestFilesLieInPackages | pytddmon.py:345-359 | every directory the test search visits below its root is a package |
| TestStrategies.TestFilesAreWatched | pytddmon.py:189-197 | every test file found is also watched by a recursive change strategy with the same root and pattern |
| TestStrategies.FindTests | pytddmon.py:350-375 | the jobs are the test files of the pruning walk, in walk order, each under the strategy's root |
| TestStrategies.Packages | pytddmon.py:354-359 | the folder list after the removals holds exactly the packages, in listing order |
| TestStrategies.MatchingJobs | pytddmon.py:360-372 | one job per full-matching file name of a directory, in listing order |
| TestStrategies.AggregateResults | pytddmon.py:326-333 | the summed green and total counts, and the `file:<path>\n<log>` entries joined by newlines |
| TestStrategies.RunTests | pytddmon.py:377-400 | either strategy's `(green, total, log)` for its jobs, whatever argument it is given |
| TestStrategies.SumsAppend | pytddmon.py:326-333 | the sums over two runs of results add up |
| TestStrategies.ErrorAddsOnlyTheMarker | pytddmon.py:329-331 | a file whose runner raised adds exactly `1j` to the total and nothing to the green count |
| TestStrategies.SumsCountFailingFiles | pytddmon.py:396-399 | the summed green count stays real and the total's imaginary part is the number of files whose runner raised |
| TestStrategies.StrategyResultCountsFailingJobs | pytddmon.py:315-333 | a strategy's green count is real and its total's imaginary part counts its failing files |
| Colors.ClassifyByFailing | pytddmon.py:614-623 | orange exactly when a count is complex; otherwise green, red or gray exactly when none, one, or two or more tests do not pass |
| Colors.ClassifyExamples | pytddmon.py:614-623 | (4,5) is red, (3,5) gray, (5,5) and (0,0) green, and (0, 1j) orange |
| Colors.ColorChangeShowsLight | pytddmon.py:475-481 | a tick that changes the colour shows the new colour light |
| Colors.StableColorAlternates | pytddmon.py:475-481 | while the colour stays the same, the ticks show light and dark alternately, starting from the current lightness |
| Colors.StableColorNeverRepeatsLightness | pytddmon.py:475-481 | two consecutive ticks under a stable colour never show the same lightness |
| Colors.RgbIsOneToOne | pytddmon.py:587-596 | every (lightness, colour) pair has its own `#rgb` string |
| Colors.ColorPicker.constructor | pytddmon.py:598-600 | a new picker is light green |
| Colors.ColorPicker.Pulse | pytddmon.py:606-608 | flips the lightness and keeps the colour |
| Colors.ColorPicker.ResetPulse | pytddmon.py:610-612 | sets the light and keeps the colour |
| Colors.ColorPicker.SetResult | pytddmon.py:614-625 | the new state is `AfterSetResult` of the old one |
| Colors.ColorPicker.Update | pytddmon.py:473-481 | one tick: the picker moves to the pulsed state and the window is painted the `#rgb` of the state picked |
| Core.Scan | pytddmon.py:90-91 | one strategy's scan, of either kind, reports and updates its baseline as that strategy does |
| Core.RescanFindsNothing | pytddmon.py:156-210 | scanning an unchanged disk again after a successful scan reports nothing and keeps the baseline, for either kind of strategy |
| Core.ScannedUpToIff | pytddmon.py:89-91 | after k scans, each of the first k strategies scanned from its own baseline and every later one kept its baseline |
| Core.ScannedNext | pytddmon.py:90-91 | one more strategy's scan extends the scans done so far |
| Core.FlattenEmpty | pytddmon.py:89-92 | the extended list is empty exactly when every strategy reported nothing |
| Core.RescanAllFindsNothing | pytddmon.py:110-114 | on an unchanged disk, the next tick's change list is empty, every baseline is kept, and so the tests are not run again |
| Core.TotalImaginaryPartNonNegative | pytddmon.py:105 | a sum of adapter-shaped totals has a non-negative imaginary part |
| Core.FailingFileTurnsWindowOrange | pytddmon.py:103-107 | when a runner raised for any file of any strategy, the summed counts are complex and the window turns orange |
| Core.Pytddmon.constructor | pytddmon.py:67-85 | the given strategies, zero totals, no logs and a last run time of -1 |
| Core.Pytddmon.WhichFilesHasChanged | pytddmon.py:87-92 | the strategies scan in order and the result is their reports concatenated, duplicates kept; when a scan raises there is no result, the strategies before it have updated their baselines, and it and those after it have not |
| Core.Pytddmon.RunTests | pytddmon.py:94-108 | the totals are the sums over this run's strategy results only, the logs are one per strategy in order, and the run time is `elapsed` |
| Core.Pytddmon.MainStep | pytddmon.py:110-114 | the strategies scan; the tests run exactly when the change list is non-empty, and otherwise the totals, logs and run time are unchanged |
| Core.Pytddmon.GetLoggs | pytddmon.py:116-118 | no logs give "", one log gives itself, and at every inner boundary the result is the logs before it, the delimiter, and the logs after it |

## Left out

- The Tk window (`TkGUI`): widgets, fonts, padding, the log window and the 750 ms timer. Only the per-tick `set_result`, `pick`, `translate_colure`, `pulse` sequence is modelled, in `Colors.ColorPicker.Update`.
- `DefaultHasher` and `os.stat`: a fingerprint is an opaque value compared only for equality, given by the `stat` map. A file without an entry raises `IOError`, as `os.stat` does on Python 3.
- `multiprocessing.Pool`: `pool.map` is modelled as the order-preserving sequential map of the `pool=False` branch. Concurrency is not modelled.
- `re.match`, `fnmatch.translate` and `re_complete_match` are the abstract predicate `matches`. `RecursiveGlobFileStartegy` differs from the regexp strategy only in how the pattern is built, so it is not modelled separately.
- `os.walk`, `os.path.abspath`, `os.path.join` and `os.path.isfile`: the walk is over a given directory tree, and paths are joined with `/`. `abspath` normalisation is not modelled, so the model's paths are the joined ones as given.
- `os.path.relpath` is a field of the environment. The model starts from the string `relpath` returns, so the last documented example (an absolute root containing an escaped space) is not modelled.
- The internals of `unittest` and `doctest`: the framework's verdict on a module is an abstract outcome. It either ran with counts and a log, or raised while loading, or raised while running.
- `time.time`: the measured duration is the parameter `elapsed`.
- `parse_commandline`, `run`, the `pytddmon.log` file and `setup.py`.
- Python 2 behaviour: `str.split()` is modelled with Python 3's whitespace set.
- FileStrategies.StaticFileStrategy.WhichFilesHasChanged: skipping an unreadable file follows Python 3, where the `OSError` from `os.stat` is an `IOError` and `hash_files` catches it. On Python 2 it is not caught, and a deleted static file makes `hash_files`, `which_files_has_changed` and `main` raise; the model does not capture that error path.
- The `%r` of the module name in the doctest log is modelled as the name between single quotes. Python's escaping of quotes and backslashes inside a repr is not modelled.
- Python set iteration order: the order of `set(file_paths)` and of the symmetric difference is not determined. `Dedup` keeps first occurrences, and each contract states only which elements are present.
- `folders.remove(folder)` removes the first folder with that name; directory names within one listing are unique, so the model filters the list instead.
- `Core.Pytddmon.WhichFilesHasChanged`: the strategies must be distinct objects. The same strategy object listed twice is not modelled.
- Colors.Classify: counts are compared by their real parts once both imaginary parts are zero. In Python an ordering comparison on a complex count would raise, but the monitor's counts are complex only when their imaginary part is non-zero.
- `StaticTestStrategy` inherits change detection from `StaticFileStartegy`, but nothing calls it on a test strategy. A static test strategy is modelled by its file set and adapter only.
- `RecursiveRegexpFileStartegy` starts with `pares = []` and stores the list `get_pares` returns, but only `set()` of it is ever used. The model stores the set.
