/** String helpers the engine takes from Python's standard library:
    `sep.join(parts)`, `os.path.basename`, and the decimal rendering of a
    count inside an f-string. */
module Strings {

  function Min(a: int, b: int): int
  {
    if a <= b then a else b
  }

  /** Sum of the lengths of all parts. */
  function TotalLength(parts: seq<string>): nat
  {
    if |parts| == 0 then 0 else |parts[0]| + TotalLength(parts[1..])
  }

  /** Python's `sep.join(parts)`. */
  function Join(parts: seq<string>, sep: string): (r: string)
    ensures |parts| == 0 ==> r == ""
    ensures |parts| > 0 ==> |r| == TotalLength(parts) + |sep| * (|parts| - 1)
    ensures |parts| > 0 ==> r[..|parts[0]|] == parts[0]
  {
    if |parts| == 0 then ""
    else if |parts| == 1 then parts[0]
    else parts[0] + sep + Join(parts[1..], sep)
  }

  /** Joining one more part adds exactly one separator before it. */
  lemma {:induction false} JoinAppend(parts: seq<string>, sep: string, last: string)
    requires |parts| > 0
    ensures Join(parts + [last], sep) == Join(parts, sep) + sep + last
    decreases |parts|
  {
    if |parts| == 1 {
      assert parts + [last] == [parts[0], last];
      assert ([parts[0], last])[1..] == [last];
    } else {
      assert (parts + [last])[1..] == parts[1..] + [last];
      JoinAppend(parts[1..], sep, last);
    }
  }

  /** `os.path.basename(path)`: the part after the last `/`, or all of
      `path` when it has none. */
  function Basename(path: string): (name: string)
    ensures '/' !in name
    ensures |name| <= |path| && path[|path| - |name|..] == name
    ensures |name| < |path| ==> path[|path| - |name| - 1] == '/'
    decreases |path|
  {
    if |path| == 0 || path[|path| - 1] == '/' then ""
    else Basename(path[..|path| - 1]) + [path[|path| - 1]]
  }

  /** A path without a `/` is its own base name. */
  lemma BasenameOfBareName(path: string)
    requires '/' !in path
    ensures Basename(path) == path
  {
  }

  function DigitChar(d: nat): (c: char)
    requires d < 10
    ensures '0' <= c <= '9'
  {
    (('0' as int) + d) as char
  }

  function DigitValue(c: char): int
  {
    (c as int) - ('0' as int)
  }

  /** The decimal rendering of `n` that `f"{n}"` produces. */
  function DecimalDigits(n: nat): (s: string)
    ensures |s| > 0
    ensures forall i :: 0 <= i < |s| ==> '0' <= s[i] <= '9'
    ensures n > 0 ==> s[0] != '0'
    decreases n
  {
    if n < 10 then [DigitChar(n)]
    else DecimalDigits(n / 10) + [DigitChar(n % 10)]
  }

  /** Reads a string of decimal digits back as a number. */
  function DecimalValue(s: string): int
  {
    if |s| == 0 then 0
    else 10 * DecimalValue(s[..|s| - 1]) + DigitValue(s[|s| - 1])
  }

  /** The rendering can be read back: no two counts print the same. */
  lemma {:induction false} DecimalRoundTrip(n: nat)
    ensures DecimalValue(DecimalDigits(n)) == n
    decreases n
  {
    var s := DecimalDigits(n);
    if n >= 10 {
      assert s[..|s| - 1] == DecimalDigits(n / 10);
      DecimalRoundTrip(n / 10);
    }
  }
}
