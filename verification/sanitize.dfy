/** The stem of a tenant's index file name: every alphanumeric character of
    the company id is kept in place and every other character becomes `_`.
    Python's `str.isalnum` is Unicode-aware; it is passed in as `isAlnum`. */
module Sanitize {

  function SafeChar(isAlnum: char -> bool, c: char): char
  {
    if isAlnum(c) then c else '_'
  }

  /** The `safe` string `_index_path` builds from a company id. */
  function Stem(isAlnum: char -> bool, companyId: string): (stem: string)
    ensures |stem| == |companyId|
    ensures forall i :: 0 <= i < |companyId| && isAlnum(companyId[i]) ==> stem[i] == companyId[i]
    ensures forall i :: 0 <= i < |companyId| && !isAlnum(companyId[i]) ==> stem[i] == '_'
    ensures forall i :: 0 <= i < |stem| ==> isAlnum(stem[i]) || stem[i] == '_'
  {
    if |companyId| == 0 then ""
    else [SafeChar(isAlnum, companyId[0])] + Stem(isAlnum, companyId[1..])
  }

  /** A company id is its own stem exactly when it is made of alphanumerics
      and underscores. */
  lemma StemFixedPoint(isAlnum: char -> bool, s: string)
    ensures Stem(isAlnum, s) == s <==> forall i :: 0 <= i < |s| ==> isAlnum(s[i]) || s[i] == '_'
  {
  }

  /** Sanitising a stem again changes nothing. */
  lemma StemIdempotent(isAlnum: char -> bool, companyId: string)
    ensures Stem(isAlnum, Stem(isAlnum, companyId)) == Stem(isAlnum, companyId)
  {
  }

  /** Two company ids share an index file exactly when they have the same
      length and differ only where both have a non-alphanumeric character
      (`_` is not alphanumeric for `str.isalnum`). */
  lemma StemCollision(isAlnum: char -> bool, a: string, b: string)
    requires !isAlnum('_')
    ensures Stem(isAlnum, a) == Stem(isAlnum, b)
        <==> |a| == |b| && forall i :: 0 <= i < |a| ==> a[i] == b[i] || (!isAlnum(a[i]) && !isAlnum(b[i]))
  {
    var sa, sb := Stem(isAlnum, a), Stem(isAlnum, b);
    if sa == sb {
      forall i | 0 <= i < |a|
        ensures a[i] == b[i] || (!isAlnum(a[i]) && !isAlnum(b[i]))
      {
        assert sa[i] == sb[i];
      }
    }
    if |a| == |b| && forall i :: 0 <= i < |a| ==> a[i] == b[i] || (!isAlnum(a[i]) && !isAlnum(b[i])) {
      assert forall i :: 0 <= i < |a| ==> sa[i] == sb[i];
    }
  }

  /** Sanitising is not injective: `a-b` and `a.b` share one index file. */
  lemma StemNotInjective(isAlnum: char -> bool)
    requires isAlnum('a') && isAlnum('b') && !isAlnum('-') && !isAlnum('.')
    ensures "a-b" != "a.b" && Stem(isAlnum, "a-b") == Stem(isAlnum, "a.b") == "a_b"
  {
  }
}
