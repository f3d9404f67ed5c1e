/**
 * Turning the path of a test file, relative to the project root, into the
 * dotted module name the test frameworks import (`file_name_to_module`).
 */
module ModuleNames {
  import opened Text

  /** Python 3 `str.isspace`: the characters `str.split()` splits at. */
  predicate IsSpace(c: char) {
    || '\U{0009}' <= c <= '\U{000D}'
    || '\U{001C}' <= c <= '\U{0020}'
    || c == '\U{0085}' || c == '\U{00A0}' || c == '\U{1680}'
    || '\U{2000}' <= c <= '\U{200A}'
    || c == '\U{2028}' || c == '\U{2029}' || c == '\U{202F}' || c == '\U{205F}' || c == '\U{3000}'
  }

  /** The characters `file_name_to_module` replaces by a space. */
  predicate IsSymbol(c: char) {
    c == '/' || c == '\\' || c == '.'
  }

  /** A character that ends a module-name component: a symbol or whitespace. */
  predicate IsBreak(c: char) {
    IsSymbol(c) || IsSpace(c)
  }

  /** `s.replace(symbol, " ")`. */
  function ReplaceWithSpace(s: string, symbol: char): (r: string)
    ensures |r| == |s|
    ensures forall i :: 0 <= i < |s| ==> r[i] == (if s[i] == symbol then ' ' else s[i])
  {
    seq(|s|, i requires 0 <= i < |s| => if s[i] == symbol then ' ' else s[i])
  }

  /** The string after the replacement loop over `/`, `\` and `.`. */
  function StripSymbols(s: string): string {
    ReplaceWithSpace(ReplaceWithSpace(ReplaceWithSpace(s, '/'), '\\'), '.')
  }

  /** The length of the run of non-break characters that starts `s`. */
  function RunLength(s: string, isBreak: char -> bool): (n: nat)
    ensures n <= |s|
    ensures forall i :: 0 <= i < n ==> !isBreak(s[i])
    ensures n == |s| || isBreak(s[n])
  {
    if s == [] || isBreak(s[0]) then 0 else 1 + RunLength(s[1..], isBreak)
  }

  /** The maximal runs of non-break characters of `s`, in order. */
  function Runs(s: string, isBreak: char -> bool): (runs: seq<string>)
    ensures forall k :: 0 <= k < |runs| ==> runs[k] != []
    ensures forall k, i :: 0 <= k < |runs| && 0 <= i < |runs[k]| ==> !isBreak(runs[k][i])
    decreases |s|
  {
    if s == [] then []
    else if isBreak(s[0]) then Runs(s[1..], isBreak)
    else
      var n := RunLength(s, isBreak);
      [s[..n]] + Runs(s[n..], isBreak)
  }

  /** `s.split()`: the whitespace-separated words of `s`. */
  function Words(s: string): seq<string> {
    Runs(s, IsSpace)
  }

  /**
   * The components of a relative path as the module name sees them: the
   * maximal runs of characters that are neither `/`, `\`, `.` nor whitespace.
   */
  function Components(s: string): seq<string> {
    Runs(s, IsBreak)
  }

  /** `words[:-1]`. */
  function DropLast<T>(s: seq<T>): seq<T> {
    if |s| == 0 then [] else s[..|s| - 1]
  }

  /**
   * `file_name_to_module` applied to the path after `os.path.relpath`: every
   * component but the last (the extension), joined with dots.
   */
  function FileNameToModule(relative: string): (name: string)
    ensures forall i :: 0 <= i < |name| ==> name[i] != '/' && name[i] != '\\' && !IsSpace(name[i])
    ensures name == "" <==> |Components(relative)| <= 1
  {
    var words := Words(StripSymbols(relative));
    StrippedWordsAreComponents(relative);
    JoinedWordsHaveNoBreaks(DropLast(words));
    Join(".", DropLast(words))
  }

  /** The characters of the string that `Runs` splits, with every break removed. */
  function Kept(s: string, isBreak: char -> bool): string {
    if s == [] then [] else (if isBreak(s[0]) then [] else [s[0]]) + Kept(s[1..], isBreak)
  }

  function Concat(parts: seq<string>): string {
    if parts == [] then [] else parts[0] + Concat(parts[1..])
  }

  lemma {:induction false} KeptAppend(a: string, b: string, isBreak: char -> bool)
    ensures Kept(a + b, isBreak) == Kept(a, isBreak) + Kept(b, isBreak)
  {
    if a == [] {
      assert a + b == b;
    } else {
      assert (a + b)[1..] == a[1..] + b;
      KeptAppend(a[1..], b, isBreak);
    }
  }

  lemma {:induction false} KeptWithoutBreaks(s: string, isBreak: char -> bool)
    requires forall i :: 0 <= i < |s| ==> !isBreak(s[i])
    ensures Kept(s, isBreak) == s
  {
    if s != [] {
      KeptWithoutBreaks(s[1..], isBreak);
      assert [s[0]] + s[1..] == s;
    }
  }

  /** The runs lose nothing but the break characters: put together, they are `s` without its breaks. */
  lemma {:induction false} RunsKeepEverythingButBreaks(s: string, isBreak: char -> bool)
    ensures Concat(Runs(s, isBreak)) == Kept(s, isBreak)
    decreases |s|
  {
    if s == [] {
    } else if isBreak(s[0]) {
      RunsKeepEverythingButBreaks(s[1..], isBreak);
    } else {
      var n := RunLength(s, isBreak);
      RunsKeepEverythingButBreaks(s[n..], isBreak);
      assert s == s[..n] + s[n..];
      KeptAppend(s[..n], s[n..], isBreak);
      KeptWithoutBreaks(s[..n], isBreak);
    }
  }

  lemma {:induction false} SameRunLength(t: string, s: string)
    requires |t| == |s|
    requires forall i :: 0 <= i < |s| ==> (IsSpace(t[i]) <==> IsBreak(s[i]))
    requires forall i :: 0 <= i < |s| && !IsBreak(s[i]) ==> t[i] == s[i]
    ensures RunLength(t, IsSpace) == RunLength(s, IsBreak)
    ensures t[..RunLength(t, IsSpace)] == s[..RunLength(s, IsBreak)]
  {
    if s != [] && !IsBreak(s[0]) {
      SameRunLength(t[1..], s[1..]);
    }
  }

  lemma {:induction false} SameRuns(t: string, s: string)
    requires |t| == |s|
    requires forall i :: 0 <= i < |s| ==> (IsSpace(t[i]) <==> IsBreak(s[i]))
    requires forall i :: 0 <= i < |s| && !IsBreak(s[i]) ==> t[i] == s[i]
    ensures Runs(t, IsSpace) == Runs(s, IsBreak)
    decreases |s|
  {
    if s == [] {
    } else if IsBreak(s[0]) {
      SameRuns(t[1..], s[1..]);
    } else {
      SameRunLength(t, s);
      var n := RunLength(s, IsBreak);
      SameRuns(t[n..], s[n..]);
    }
  }

  /**
   * Replacing `/`, `\` and `.` by spaces and splitting at whitespace yields
   * exactly the path components.
   */
  lemma StrippedWordsAreComponents(s: string)
    ensures Words(StripSymbols(s)) == Components(s)
  {
    SameRuns(StripSymbols(s), s);
  }

  lemma {:induction false} JoinedWordsHaveNoBreaks(parts: seq<string>)
    requires forall k, i :: 0 <= k < |parts| && 0 <= i < |parts[k]| ==> !IsSpace(parts[k][i])
    requires forall k, i :: 0 <= k < |parts| && 0 <= i < |parts[k]| ==> !IsSymbol(parts[k][i])
    requires forall k :: 0 <= k < |parts| ==> parts[k] != []
    ensures Join(".", parts) == "" <==> parts == []
    ensures forall i :: 0 <= i < |Join(".", parts)| ==>
              var c := Join(".", parts)[i]; c != '/' && c != '\\' && !IsSpace(c)
  {
    if |parts| > 1 {
      JoinedWordsHaveNoBreaks(parts[1..]);
      var j := Join(".", parts);
      assert j == parts[0] + "." + Join(".", parts[1..]);
      forall i | 0 <= i < |j| ensures j[i] != '/' && j[i] != '\\' && !IsSpace(j[i]) {
        if i < |parts[0]| {
          assert j[i] == parts[0][i];
        } else if i > |parts[0]| {
          assert j[i] == Join(".", parts[1..])[i - |parts[0]| - 1];
        }
      }
    }
  }

  /**
   * Splitting the module name at its dots gives back every path component
   * but the last: the dots the name contains are exactly its separators.
   */
  lemma ModuleNameSplitsIntoComponents(relative: string)
    requires |Components(relative)| >= 2
    ensures SplitOn(FileNameToModule(relative), '.') == DropLast(Components(relative))
  {
    StrippedWordsAreComponents(relative);
    var parts := DropLast(Components(relative));
    SplitJoin(parts, '.');
  }

  lemma ModuleNameFromComponents(relative: string)
    ensures FileNameToModule(relative) == Join(".", DropLast(Components(relative)))
  {
    StrippedWordsAreComponents(relative);
  }

  lemma {:induction false} RunLengthOfWord(word: string, rest: string)
    requires forall i :: 0 <= i < |word| ==> !IsBreak(word[i])
    requires rest == [] || IsBreak(rest[0])
    ensures RunLength(word + rest, IsBreak) == |word|
  {
    if word == [] {
      assert word + rest == rest;
    } else {
      assert (word + rest)[1..] == word[1..] + rest;
      RunLengthOfWord(word[1..], rest);
    }
  }

  /** A component followed by a break character comes off the front of the path. */
  lemma ComponentThenBreak(word: string, c: char, rest: string)
    requires word != [] && IsBreak(c)
    requires forall i :: 0 <= i < |word| ==> !IsBreak(word[i])
    ensures Components(word + [c] + rest) == [word] + Components(rest)
  {
    var s := word + [c] + rest;
    RunLengthOfWord(word, [c] + rest);
    assert s == word + ([c] + rest);
    assert s[..|word|] == word;
    assert s[|word|..] == [c] + rest;
    assert s[0] == word[0];
    assert Runs(s, IsBreak) == [word] + Runs([c] + rest, IsBreak);
    assert ([c] + rest)[1..] == rest;
    assert Runs([c] + rest, IsBreak) == Runs(rest, IsBreak);
  }

  lemma LastComponent(word: string)
    requires word != []
    requires forall i :: 0 <= i < |word| ==> !IsBreak(word[i])
    ensures Components(word) == [word]
  {
    RunLengthOfWord(word, []);
    assert word + [] == word;
    assert word[..|word|] == word && word[|word|..] == [];
    assert Runs(word, IsBreak) == [word] + Runs([], IsBreak);
  }

  lemma BreakFirst(c: char, rest: string)
    requires IsBreak(c)
    ensures Components([c] + rest) == Components(rest)
  {
    assert ([c] + rest)[1..] == rest;
  }

  /** A module file `mod.ext` at the root is the module `mod`. */
  lemma TopLevelModule(mod: string, ext: string)
    requires mod != [] && ext != []
    requires forall i :: 0 <= i < |mod| ==> !IsBreak(mod[i])
    requires forall i :: 0 <= i < |ext| ==> !IsBreak(ext[i])
    ensures FileNameToModule(mod + ['.'] + ext) == mod
  {
    LastComponent(ext);
    ComponentThenBreak(mod, '.', ext);
    ModuleNameFromComponents(mod + ['.'] + ext);
  }

  /** A module file `pkg<sep>mod.ext` one package down is the module `pkg.mod`, whichever separator is used. */
  lemma PackagedModule(path: string, pkg: string, sep: char, mod: string, ext: string)
    requires path == pkg + [sep] + mod + ['.'] + ext
    requires pkg != [] && mod != [] && ext != [] && IsBreak(sep)
    requires forall i :: 0 <= i < |pkg| ==> !IsBreak(pkg[i])
    requires forall i :: 0 <= i < |mod| ==> !IsBreak(mod[i])
    requires forall i :: 0 <= i < |ext| ==> !IsBreak(ext[i])
    ensures FileNameToModule(path) == pkg + "." + mod
  {
    LastComponent(ext);
    ComponentThenBreak(mod, '.', ext);
    ComponentThenBreak(pkg, sep, mod + ['.'] + ext);
    assert path == pkg + [sep] + (mod + ['.'] + ext);
    assert Components(path) == [pkg, mod, ext];
    assert DropLast([pkg, mod, ext]) == [pkg, mod];
    assert Join(".", [pkg, mod]) == pkg + "." + Join(".", [mod]);
    ModuleNameFromComponents(path);
  }

  /** A leading separator or dot (as in `./`) does not change the module name. */
  lemma LeadingBreakIgnored(path: string, c: char, rest: string)
    requires path == [c] + rest && IsBreak(c)
    ensures FileNameToModule(path) == FileNameToModule(rest)
  {
    BreakFirst(c, rest);
    ModuleNameFromComponents(path);
    ModuleNameFromComponents(rest);
  }
}

/** The examples in the documentation of `file_name_to_module`. */
module ModuleNameExamples {
  import opened ModuleNames

  predicate IsLowerCaseWord(word: string) {
    word != [] && forall i :: 0 <= i < |word| ==> 'a' <= word[i] <= 'z'
  }

  lemma TopLevelLowerCaseModule(path: string, mod: string, ext: string)
    requires path == mod + ['.'] + ext
    requires IsLowerCaseWord(mod) && IsLowerCaseWord(ext)
    ensures FileNameToModule(path) == mod
  {
    TopLevelModule(mod, ext);
  }

  lemma PackagedLowerCaseModule(path: string, name: string, pkg: string, sep: char, mod: string, ext: string)
    requires path == pkg + [sep] + mod + ['.'] + ext && IsBreak(sep)
    requires name == pkg + "." + mod
    requires IsLowerCaseWord(pkg) && IsLowerCaseWord(mod) && IsLowerCaseWord(ext)
    ensures FileNameToModule(path) == name
  {
    PackagedModule(path, pkg, sep, mod, ext);
  }

  // The documented examples, for the name transformation applied to the path as written.
  lemma ExampleScriptFile()
    ensures FileNameToModule("pytddmon.pyw") == "pytddmon"
  {
    TopLevelLowerCaseModule("pytddmon.pyw", "pytddmon", "pyw");
  }

  lemma ExampleModuleFile()
    ensures FileNameToModule("pytddmon.py") == "pytddmon"
  {
    TopLevelLowerCaseModule("pytddmon.py", "pytddmon", "py");
  }

  lemma ExamplePackagedModule(path: string)
    requires path == "tests/pytddmon.py"
    ensures FileNameToModule(path) == "tests.pytddmon"
  {
    PackagedLowerCaseModule(path, "tests.pytddmon", "tests", '/', "pytddmon", "py");
  }

  lemma ExampleDotSlashPrefix(path: string)
    requires path == "./tests/pytddmon.py"
    ensures FileNameToModule(path) == "tests.pytddmon"
  {
    var rest := "tests/pytddmon.py";
    assert path[1..] == ['/'] + rest && path == ['.'] + path[1..];
    ExamplePackagedModule(rest);
    LeadingBreakIgnored(path[1..], '/', rest);
    LeadingBreakIgnored(path, '.', path[1..]);
  }

  lemma ExampleWindowsSeparators(path: string)
    requires path == ".\\tests\\pytddmon.py"
    ensures FileNameToModule(path) == "tests.pytddmon"
  {
    var rest := "tests\\pytddmon.py";
    assert path[1..] == ['\\'] + rest && path == ['.'] + path[1..];
    PackagedLowerCaseModule(rest, "tests.pytddmon", "tests", '\\', "pytddmon", "py");
    LeadingBreakIgnored(path[1..], '\\', rest);
    LeadingBreakIgnored(path, '.', path[1..]);
  }
}
