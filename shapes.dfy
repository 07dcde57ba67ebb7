/**
 The line shapes the scanner recognises, one per regular expression (or
 `str.find` test) of the scan loop. Each recogniser is applied to a line that
 has already been right-stripped and that holds no line feed (the report is
 read line by line), so the pattern `.` matches every character of it and
 `$` matches only at its end.

 Each concrete recogniser has a partner: a ghost predicate that says, by
 existential quantification over the positions of the pattern's pieces, when
 the regular expression matches; a lemma shows the two agree.
 */
module Shapes {
  import opened Wrappers
  import opened Text

  /** The hit-section marker, searched for with `find(...) == 0`. */
  const Marker: string := "Sequences producing significant alignments:"

  /** `re.match("^\s*$", line)`. */
  predicate IsBlank(line: string) {
    AllWs(line)
  }

  /** `re.match("^\s*BLASTN", line)`. */
  predicate IsHeader(line: string) {
    "BLASTN" <= line[LeadingWs(line)..]
  }

  /** `re.match("^\s*Query= (?P<queryName>.+)$", line)`; the name is non-empty. */
  predicate IsQuery(line: string) {
    var rest := line[LeadingWs(line)..];
    "Query= " <= rest && |rest| > |"Query= "|
  }

  /** `line.find(Marker) == 0`: the marker must start in column 0. */
  predicate IsMarker(line: string) {
    Marker <= line
  }

  /** `^\s*BLASTN` as a regular expression: some whitespace run, then the word. */
  ghost predicate HeaderRegex(line: string) {
    exists w :: 0 <= w <= |line| && AllWs(line[..w]) && "BLASTN" <= line[w..]
  }

  /** `^\s*Query= (.+)$` as a regular expression. */
  ghost predicate QueryRegex(line: string) {
    exists w :: 0 <= w <= |line| && AllWs(line[..w]) && "Query= " <= line[w..] && |line| - w > 7
  }

  /** A word that starts with a non-space can only follow the whole leading whitespace. */
  lemma WordAfterWs(line: string, word: string, w: nat)
    requires word != [] && !IsWs(word[0])
    requires w <= |line| && AllWs(line[..w]) && word <= line[w..]
    ensures w == LeadingWs(line)
  {
    assert line[w..][0] == word[0];
    if w < |line| {
      LeadingWsStopsAt(line, w);
    }
  }

  lemma HeaderIsRegex(line: string)
    ensures IsHeader(line) <==> HeaderRegex(line)
  {
    if HeaderRegex(line) {
      var w :| 0 <= w <= |line| && AllWs(line[..w]) && "BLASTN" <= line[w..];
      WordAfterWs(line, "BLASTN", w);
    }
  }

  lemma QueryIsRegex(line: string)
    ensures IsQuery(line) <==> QueryRegex(line)
  {
    if QueryRegex(line) {
      var w :| 0 <= w <= |line| && AllWs(line[..w]) && "Query= " <= line[w..] && |line| - w > 7;
      WordAfterWs(line, "Query= ", w);
    }
  }

  /** `^\s*$` as a regular expression: the greedy `\s*` reaches the end of the line. */
  lemma BlankIsRegex(line: string)
    ensures IsBlank(line) <==> LeadingWs(line) == |line|
  {
    assert line[..|line|] == line;
    if IsBlank(line) {
      LeadingWsIsLongest(line, |line|);
    }
  }

  /** An indented marker is not a marker: it is only accepted in column 0, with no leading whitespace. */
  lemma MarkerAtColumnZero(line: string)
    ensures IsMarker(line) ==> |line| > 0 && line[0] == 'S' && LeadingWs(line) == 0
  {
    assert Marker[0] == 'S';
  }

  /**
   The hit pattern
     ^\s*(?P<seqstring>.+\|.+?)\s{2,}(?P<score>.+)\s{2,}(?P<evalue>.+)$
   matches `l` with the pieces at these positions: the leading whitespace
   `l[..w]`, the group `seqstring` `l[w..s]` with its bar at `q`, then
   `l[s..i]` (two or more spaces), the score `l[i..j]`, `l[j..k]` (two or more
   spaces) and the e-value `l[k..]`.
   */
  ghost predicate HitAt(l: string, w: nat, q: nat, s: nat, i: nat, j: nat, k: nat) {
    && w < q && q + 1 < s && s + 2 <= i && i < j && j + 2 <= k && k < |l|
    && AllWs(l[..w]) && l[q] == '|' && AllWs(l[s..i]) && AllWs(l[j..k])
  }

  /** The choice `w`, `q`, `s` for the first three pieces can be completed. */
  ghost predicate Continues(l: string, w: nat, q: nat, s: nat) {
    exists i: nat, j: nat, k: nat :: HitAt(l, w, q, s, i, j, k)
  }

  ghost predicate HitRegex(l: string) {
    exists w: nat, q: nat, s: nat :: Continues(l, w, q, s)
  }

  /**
   The backtracking engine tries `\s*` longest first, then `.+` before the bar
   longest first (a later bar), then the lazy `.+?` after it shortest first;
   `(w, q, s)` is tried before `(w', q', s')` when it comes first in that order.
   */
  ghost predicate TriedBefore(w: nat, q: nat, s: nat, w': nat, q': nat, s': nat) {
    w > w' || (w == w' && (q > q' || (q == q' && s < s')))
  }

  /** The choice the engine settles on: it continues, and every other one that does is tried later. */
  ghost predicate FirstMatch(l: string, w: nat, q: nat, s: nat) {
    && Continues(l, w, q, s)
    && forall w': nat, q': nat, s': nat :: Continues(l, w', q', s') && (w', q', s') != (w, q, s) ==>
         TriedBefore(w, q, s, w', q', s')
  }

  /** Whether some `m >= j` starts two whitespace characters that are followed by at least one more character. */
  predicate HasWsPairFrom(l: string, j: nat)
    decreases |l| - j
    ensures HasWsPairFrom(l, j) <==> exists m :: j <= m && m + 2 < |l| && IsWs(l[m]) && IsWs(l[m + 1])
  {
    j + 2 < |l| && ((IsWs(l[j]) && IsWs(l[j + 1])) || HasWsPairFrom(l, j + 1))
  }

  /** `l[s..]` matches `\s{2,}.+\s{2,}.+$`. */
  predicate TailOk(l: string, s: nat) {
    s + 1 < |l| && IsWs(l[s]) && IsWs(l[s + 1]) && HasWsPairFrom(l, s + 3)
  }

  lemma TailOkIsRegex(l: string, w: nat, q: nat, s: nat)
    requires w < q < |l| && q + 1 < s && AllWs(l[..w]) && l[q] == '|'
    ensures TailOk(l, s) <==> Continues(l, w, q, s)
  {
    if TailOk(l, s) {
      var m :| s + 3 <= m && m + 2 < |l| && IsWs(l[m]) && IsWs(l[m + 1]);
      assert HitAt(l, w, q, s, s + 2, m, m + 2);
    }
    if Continues(l, w, q, s) {
      var i: nat, j: nat, k: nat :| HitAt(l, w, q, s, i, j, k);
      assert l[s..i][0] == l[s] && l[s..i][1] == l[s + 1];
      assert l[j..k][0] == l[j] && l[j..k][1] == l[j + 1];
    }
  }

  /** The first `s' >= s` after which the tail pattern matches: the lazy `.+?`. */
  function FirstTail(l: string, s: nat): (r: Option<nat>)
    decreases |l| - s
    ensures r.Some? ==> s <= r.value && TailOk(l, r.value)
    ensures r.Some? ==> forall s': nat :: s <= s' < r.value ==> !TailOk(l, s')
    ensures r.None? ==> forall s': nat :: s <= s' ==> !TailOk(l, s')
  {
    if s + 1 >= |l| then None
    else if TailOk(l, s) then Some(s)
    else FirstTail(l, s + 1)
  }

  /** A bar at `q`, with at least one character before it, that the rest of the pattern can follow. */
  predicate BarOk(l: string, q: nat) {
    1 <= q < |l| && l[q] == '|' && FirstTail(l, q + 2).Some?
  }

  /** The last workable bar at or before `q`: the greedy `.+` before the bar. */
  function LastBar(l: string, q: nat): (r: Option<nat>)
    ensures r.Some? ==> r.value <= q && BarOk(l, r.value)
    ensures r.Some? ==> forall q': nat :: r.value < q' <= q ==> !BarOk(l, q')
    ensures r.None? ==> forall q': nat :: q' <= q ==> !BarOk(l, q')
  {
    if q == 0 then None
    else if BarOk(l, q) then Some(q)
    else LastBar(l, q - 1)
  }

  /**
   The `seqstring` group of the hit pattern, or None when the pattern does not
   match. The leading `\s*` gives back whitespace only when the bar needs a
   character before it.
   */
  function HitSeqString(l: string): (r: Option<string>)
    ensures r.Some? ==> '|' in r.value
  {
    if |l| == 0 then None
    else
      match LastBar(l, |l| - 1)
      case None => None
      case Some(q) =>
        var w := if LeadingWs(l) < q - 1 then LeadingWs(l) else q - 1;
        var s := FirstTail(l, q + 2).value;
        assert l[w..s][q - w] == '|';
        Some(l[w..s])
  }

  /** Whatever the engine matches, it matches at a workable bar, after the leading whitespace. */
  lemma ContinuesBounds(l: string, w: nat, q: nat, s: nat)
    requires Continues(l, w, q, s)
    ensures BarOk(l, q) && w <= LeadingWs(l) && w < q && q + 2 <= s
    ensures TailOk(l, s) && FirstTail(l, q + 2).value <= s
  {
    var i: nat, j: nat, k: nat :| HitAt(l, w, q, s, i, j, k);
    TailOkIsRegex(l, w, q, s);
    LeadingWsIsLongest(l, w);
  }

  /** Every choice that continues is tried no earlier than the one `HitSeqString` takes. */
  lemma FirstChoiceIsFirst(l: string, w: nat, q: nat, s: nat)
    requires |l| > 0 && LastBar(l, |l| - 1) == Some(q)
    requires w == (if LeadingWs(l) < q - 1 then LeadingWs(l) else q - 1)
    requires s == FirstTail(l, q + 2).value
    ensures FirstMatch(l, w, q, s)
  {
    var p := LeadingWs(l);
    assert AllWs(l[..w]) by {
      assert l[..w] == l[..p][..w];
    }
    TailOkIsRegex(l, w, q, s);
    forall w': nat, q': nat, s': nat | Continues(l, w', q', s') && (w', q', s') != (w, q, s)
      ensures TriedBefore(w, q, s, w', q', s')
    {
      ContinuesBounds(l, w', q', s');
      assert q' <= q;
      assert w' <= w;
      assert q' == q ==> s <= s';
    }
  }

  /**
   `HitSeqString` is exact: it finds a group precisely when the hit pattern
   matches, and the group it finds is the one of the engine's first match.
   */
  lemma HitSeqStringIsFirstMatch(l: string)
    ensures HitSeqString(l).Some? <==> HitRegex(l)
    ensures HitSeqString(l).Some? ==>
      exists w: nat, q: nat, s: nat :: FirstMatch(l, w, q, s) && HitSeqString(l).value == l[w..s]
  {
    if HitRegex(l) {
      var w: nat, q: nat, s: nat :| Continues(l, w, q, s);
      ContinuesBounds(l, w, q, s);
      assert LastBar(l, |l| - 1).Some?;
    }
    if HitSeqString(l).Some? {
      var q := LastBar(l, |l| - 1).value;
      var w := if LeadingWs(l) < q - 1 then LeadingWs(l) else q - 1;
      FirstChoiceIsFirst(l, w, q, FirstTail(l, q + 2).value);
    }
  }

  /** A hit line whose description has a double space right after its bar. */
  const BarThenSpaces: string := "ab|  x  y  z"

  lemma BarThenSpacesTail()
    ensures FirstTail(BarThenSpaces, 4) == Some(6)
  {
    var l := BarThenSpaces;
    assert !TailOk(l, 4) && !TailOk(l, 5) && TailOk(l, 6);
  }

  lemma BarThenSpacesBar()
    ensures LastBar(BarThenSpaces, |BarThenSpaces| - 1) == Some(2)
  {
    BarThenSpacesTail();
    assert BarOk(BarThenSpaces, 2);
  }

  /** The lazy `.+?` takes at least one character after the bar before the whitespace run. */
  lemma LazyTailExample()
    ensures HitSeqString(BarThenSpaces) == Some("ab|  x")
  {
    var l := BarThenSpaces;
    BarThenSpacesBar();
    BarThenSpacesTail();
    assert LeadingWs(l) == 0;
    assert l[0..6] == "ab|  x";
  }

  /** A line the hit pattern accepts is not blank. */
  lemma HitLineIsNotBlank(l: string)
    requires HitSeqString(l).Some?
    ensures !IsBlank(l)
  {
    var q := LastBar(l, |l| - 1).value;
    assert l[q] == '|';
  }
}
