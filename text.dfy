/** Small helpers shared by the model. */
module Wrappers {

  datatype Option<T> = None | Some(value: T)
}

/**
 Whitespace and stripping as Python 2 does it on a byte string: `str.rstrip()`,
 `str.strip()` and the regular-expression class `\s` all use the same six
 characters (space, tab, line feed, carriage return, vertical tab, form feed).
 */
module Text {

  predicate IsWs(c: char) {
    c == ' ' || c == '\t' || c == '\n' || c == '\r' || c == '\U{B}' || c == '\U{C}'
  }

  predicate AllWs(s: string) {
    forall i :: 0 <= i < |s| ==> IsWs(s[i])
  }

  /** The length of the longest all-whitespace prefix of `s`. */
  function LeadingWs(s: string): (n: nat)
    ensures n <= |s| && AllWs(s[..n])
    ensures n < |s| ==> !IsWs(s[n])
  {
    if |s| > 0 && IsWs(s[0]) then
      var n := 1 + LeadingWs(s[1..]);
      assert s[..n] == [s[0]] + s[1..][..n - 1];
      n
    else 0
  }

  /** Leading whitespace ends at the first non-space character. */
  lemma {:induction false} LeadingWsStopsAt(s: string, k: nat)
    requires k < |s| && !IsWs(s[k]) && AllWs(s[..k])
    ensures LeadingWs(s) == k
  {
    if k > 0 {
      assert s[..k][0] == s[0];
      assert s[1..][..k - 1] == s[..k][1..];
      LeadingWsStopsAt(s[1..], k - 1);
    }
  }

  /** A whitespace prefix of `s` is never longer than `LeadingWs(s)`. */
  lemma {:induction false} LeadingWsIsLongest(s: string, w: nat)
    requires w <= |s| && AllWs(s[..w])
    ensures w <= LeadingWs(s)
  {
    if w > 0 {
      assert s[..w][0] == s[0];
      assert s[1..][..w - 1] == s[..w][1..];
      LeadingWsIsLongest(s[1..], w - 1);
    }
  }

  /** A prefix that reaches past the leading whitespace has the same leading whitespace. */
  lemma LeadingWsOfPrefix(t: string, s: string)
    requires t <= s && LeadingWs(t) < |t|
    ensures LeadingWs(s) == LeadingWs(t)
  {
    var n := LeadingWs(t);
    assert s[..n] == t[..n];
    LeadingWsStopsAt(s, n);
  }

  /** Python's `s.rstrip()`. */
  function RStrip(s: string): (r: string)
    ensures r <= s && AllWs(s[|r|..])
    ensures r != [] ==> !IsWs(r[|r| - 1])
  {
    if |s| > 0 && IsWs(s[|s| - 1]) then
      var r := RStrip(s[..|s| - 1]);
      assert s[|r|..] == s[..|s| - 1][|r|..] + [s[|s| - 1]];
      r
    else s
  }

  /** Python's `s.lstrip()`. */
  function LStrip(s: string): (r: string)
    ensures |r| <= |s| && r == s[|s| - |r|..] && AllWs(s[..|s| - |r|])
    ensures r != [] ==> !IsWs(r[0])
  {
    s[LeadingWs(s)..]
  }

  /** Python's `s.strip()`: `s` is the result with whitespace on both sides. */
  function Strip(s: string): (r: string)
    ensures LeadingWs(s) + |r| <= |s|
    ensures r == s[LeadingWs(s)..LeadingWs(s) + |r|] && AllWs(s[LeadingWs(s) + |r|..])
    ensures r != [] ==> !IsWs(r[0]) && !IsWs(r[|r| - 1])
  {
    var t := RStrip(s);
    if t == [] then [] else
      assert t[..|t|] == t;
      LeadingWsOfPrefix(t, s);
      LStrip(t)
  }

  /** Stripping never loses a non-whitespace character. */
  lemma {:induction false} StripKeeps(s: string, k: nat)
    requires k < |s| && !IsWs(s[k])
    ensures s[k] in Strip(s)
  {
    var r, i := Strip(s), LeadingWs(s);
    assert r[k - i] == s[k];
  }
}
