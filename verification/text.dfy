/**
 * The few pieces of Python string handling the importer relies on:
 * `os.path.basename`, `str.split(c)[0]`, rendering an optional text the way
 * an f-string renders `None`, decimal rendering of status codes, and
 * substring containment (used to state what an error message names).
 */
module PyText {

  datatype Option<T> = None | Some(value: T)

  /** How an f-string or `str()` renders a value that is either a text or `None`. */
  function Show(o: Option<string>): string
  {
    match o
    case Some(s) => s
    case None => "None"
  }

  /**
   * `os.path.basename` on a POSIX path: everything after the last '/'.
   * The result is the longest suffix of `p` that holds no '/'.
   */
  function Basename(p: string): (r: string)
    ensures '/' !in r
    ensures |r| <= |p| && r == p[|p| - |r|..]
    ensures |r| < |p| ==> p[|p| - |r| - 1] == '/'
  {
    if p == [] then []
    else if p[|p| - 1] == '/' then []
    else
      var r' := Basename(p[..|p| - 1]);
      assert p[|p| - |r'| - 1..] == p[..|p| - 1][|p| - 1 - |r'|..] + [p[|p| - 1]];
      r' + [p[|p| - 1]]
  }

  /** The three properties of `Basename` pin its result down: there is only one such suffix. */
  lemma BasenameUnique(p: string, r: string)
    requires '/' !in r
    requires |r| <= |p| && r == p[|p| - |r|..]
    requires |r| < |p| ==> p[|p| - |r| - 1] == '/'
    ensures r == Basename(p)
  {
  }

  /**
   * `s.split(c)[0]`: the part of `s` before the first `c`, or all of `s`
   * when it holds no `c`.
   */
  function PrefixBefore(s: string, c: char): (r: string)
    ensures c !in r
    ensures r <= s
    ensures |r| < |s| ==> s[|r|] == c
  {
    if s == [] then []
    else if s[0] == c then []
    else [s[0]] + PrefixBefore(s[1..], c)
  }

  /** The prefix is the whole text exactly when the separator does not occur. */
  lemma PrefixBeforeWhole(s: string, c: char)
    ensures PrefixBefore(s, c) == s <==> c !in s
  {
  }

  /** Splitting a text glued to a tail that starts with the separator gives the text back. */
  lemma {:induction false} PrefixBeforeConcat(a: string, c: char, b: string)
    requires c !in a
    requires |b| > 0 && b[0] == c
    ensures PrefixBefore(a + b, c) == a
  {
    if a != [] {
      assert (a + b)[1..] == a[1..] + b;
      PrefixBeforeConcat(a[1..], c, b);
    } else {
      assert a + b == b;
    }
  }

  function Digit(d: nat): char
    requires d < 10
  {
    "0123456789"[d]
  }

  function DigitValue(c: char): nat
  {
    if '0' <= c <= '9' then (c as int - '0' as int) as nat else 0
  }

  /** Python's `str()` of a non-negative integer (a status or exit code). */
  function Decimal(n: nat): (s: string)
    ensures |s| >= 1
    ensures forall i :: 0 <= i < |s| ==> '0' <= s[i] <= '9'
    ensures n < 10 <==> |s| == 1
  {
    if n < 10 then [Digit(n)] else Decimal(n / 10) + [Digit(n % 10)]
  }

  /** Reads a text of decimal digits back as a number. */
  function ParseDecimal(s: string): nat
  {
    if s == [] then 0 else 10 * ParseDecimal(s[..|s| - 1]) + DigitValue(s[|s| - 1])
  }

  /** Rendering a code and reading it back gives the code: the rendering loses nothing. */
  lemma {:induction false} DecimalRoundTrip(n: nat)
    ensures ParseDecimal(Decimal(n)) == n
  {
    if n >= 10 {
      var s := Decimal(n);
      assert s[..|s| - 1] == Decimal(n / 10);
      DecimalRoundTrip(n / 10);
    }
  }

  /** `t in s` for Python texts: `t` occurs somewhere in `s`. */
  ghost predicate Contains(s: string, t: string)
  {
    exists i :: OccursAt(s, t, i)
  }

  /** `t` occurs in `s` starting at index `i`. */
  predicate OccursAt(s: string, t: string, i: int)
  {
    0 <= i <= |s| - |t| && s[i..i + |t|] == t
  }

  lemma ContainsMiddle(a: string, t: string, b: string)
    ensures Contains(a + t + b, t)
  {
    var s := a + t + b;
    assert OccursAt(s, t, |a|);
  }
}
