/**
 * Values shared by every part of the monitor: paths, optional values and the
 * Python numbers the monitor counts and fingerprints with.
 */
module Values {

  /** A file or directory path, as the monitor passes it around. */
  type Path = string

  datatype Option<+T> = None | Some(value: T)

  /**
   * A Python number whose real and imaginary parts are integers. Test counts
   * are plain integers until an adapter fails, when `1j` is added to the total;
   * file fingerprints are `size + hash(path) + mtime * 1j`. Only addition and
   * equality are ever applied to them.
   */
  datatype Complex = Complex(re: int, im: int) {
    function Plus(other: Complex): Complex {
      Complex(re + other.re, im + other.im)
    }
  }

  /** The Python integer `n` seen as a number of the same kind. */
  function Real(n: int): Complex {
    Complex(n, 0)
  }

  /** `1j`: the total a failing adapter reports instead of a test count. */
  const ErrorMarker: Complex := Complex(0, 1)

  /** A file fingerprint. */
  type Hash = Complex

  /** The `-1` a fixed-set strategy stores for files it has not fingerprinted yet. */
  const Unhashed: Hash := Real(-1)

  ghost predicate NoDuplicates<T>(s: seq<T>) {
    forall i, j :: 0 <= i < j < |s| ==> s[i] != s[j]
  }

  /** The elements of `s`, as a set. */
  ghost function Elements<T>(s: seq<T>): set<T> {
    set x | x in s
  }

  lemma ElementsAppend<T>(a: seq<T>, b: seq<T>)
    ensures Elements(a + b) == Elements(a) + Elements(b)
  {
  }

  lemma HeadIsElement<T>(s: seq<T>)
    ensures s != [] ==> s[0] in Elements(s)
  {
  }
}
