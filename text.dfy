/**
 * Python's `sep.join(parts)` and `s.split(sep)` for a one-character separator,
 * and the round trip between them.
 */
module Text {

  /** `sep.join(parts)`. */
  function Join(sep: string, parts: seq<string>): string {
    if |parts| == 0 then ""
    else if |parts| == 1 then parts[0]
    else parts[0] + sep + Join(sep, parts[1..])
  }

  /** `s.split(sep)`: the pieces between occurrences of `sep`; never empty. */
  function SplitOn(s: string, sep: char): (pieces: seq<string>)
    ensures |pieces| >= 1
  {
    if s == [] then [""]
    else if s[0] == sep then [""] + SplitOn(s[1..], sep)
    else var rest := SplitOn(s[1..], sep); [[s[0]] + rest[0]] + rest[1..]
  }

  lemma {:induction false} SplitWithoutSeparator(s: string, sep: char)
    requires sep !in s
    ensures SplitOn(s, sep) == [s]
  {
    if s != [] {
      SplitWithoutSeparator(s[1..], sep);
      assert [s[0]] + s[1..] == s;
    }
  }

  lemma {:induction false} SplitAtFirstSeparator(a: string, sep: char, rest: string)
    requires sep !in a
    ensures SplitOn(a + [sep] + rest, sep) == [a] + SplitOn(rest, sep)
  {
    if a == [] {
      assert a + [sep] + rest == [sep] + rest;
    } else {
      assert (a + [sep] + rest)[1..] == a[1..] + [sep] + rest;
      SplitAtFirstSeparator(a[1..], sep, rest);
      assert [a[0]] + a[1..] == a;
    }
  }

  /**
   * Splitting a join at its separator gives the parts back, provided no part
   * contains the separator.
   */
  lemma {:induction false} SplitJoin(parts: seq<string>, sep: char)
    requires |parts| >= 1
    requires forall i :: 0 <= i < |parts| ==> sep !in parts[i]
    ensures SplitOn(Join([sep], parts), sep) == parts
  {
    if |parts| == 1 {
      SplitWithoutSeparator(parts[0], sep);
    } else {
      SplitJoin(parts[1..], sep);
      SplitAtFirstSeparator(parts[0], sep, Join([sep], parts[1..]));
    }
  }

  /** A join splits at any inner boundary into the join of the parts before it and the join of the parts after it. */
  lemma {:induction false} JoinSplitsAt(sep: string, parts: seq<string>, k: nat)
    requires 0 < k < |parts|
    ensures Join(sep, parts) == Join(sep, parts[..k]) + sep + Join(sep, parts[k..])
  {
    if k > 1 {
      JoinSplitsAt(sep, parts[1..], k - 1);
      assert parts[1..][..k - 1] == parts[..k][1..];
      assert parts[1..][k - 1..] == parts[k..];
    } else {
      assert parts[..k] == [parts[0]];
      assert parts[k..] == parts[1..];
    }
  }

  lemma JoinSplits(sep: string, parts: seq<string>)
    ensures forall k :: 0 < k < |parts| ==> Join(sep, parts) == Join(sep, parts[..k]) + sep + Join(sep, parts[k..])
  {
    forall k | 0 < k < |parts| ensures Join(sep, parts) == Join(sep, parts[..k]) + sep + Join(sep, parts[k..]) {
      JoinSplitsAt(sep, parts, k);
    }
  }
}
