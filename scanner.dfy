/**
 The single pass over the report: three flags and the `results` dictionary,
 updated line by line.
 */
module Scanner {
  import opened Wrappers
  import opened Text
  import opened Shapes
  import opened Tallies

  /** One line of the report, as the file iterator yields it, without its terminator. */
  type Line = s: string | '\n' !in s

  /** The scan's variables. */
  datatype ScanState = ScanState(foundHeader: bool, newQuery: bool, getNextHit: bool, results: map<string, nat>)

  const Start := ScanState(false, false, false, map[])

  /** The four states the three flags encode. */
  datatype Phase = AwaitingHeader | AwaitingQuery | AwaitingMarker | AwaitingHit

  /** Only these flag combinations can occur: `getNextHit ==> newQuery ==> foundHeader`. */
  predicate Inv(s: ScanState) {
    (s.getNextHit ==> s.newQuery) && (s.newQuery ==> s.foundHeader)
  }

  /** The flags `(foundHeader, newQuery, getNextHit)` that stand for a phase. */
  function FlagsOf(p: Phase): (f: (bool, bool, bool))
    ensures (f.2 ==> f.1) && (f.1 ==> f.0)
  {
    match p
    case AwaitingHeader => (false, false, false)
    case AwaitingQuery => (true, false, false)
    case AwaitingMarker => (true, true, false)
    case AwaitingHit => (true, true, true)
  }

  function PhaseOf(s: ScanState): (p: Phase)
    requires Inv(s)
    ensures FlagsOf(p) == (s.foundHeader, s.newQuery, s.getNextHit)
  {
    if !s.foundHeader then AwaitingHeader
    else if !s.newQuery then AwaitingQuery
    else if !s.getNextHit then AwaitingMarker
    else AwaitingHit
  }

  /** The shape of line each phase waits for. */
  predicate Accepts(p: Phase, line: string) {
    match p
    case AwaitingHeader => IsHeader(line)
    case AwaitingQuery => IsQuery(line)
    case AwaitingMarker => IsMarker(line)
    case AwaitingHit => HitSeqString(line).Some?
  }

  /** Where each phase goes once its line arrives: after the top hit, back to the next query. */
  function NextPhase(p: Phase): Phase {
    match p
    case AwaitingHeader => AwaitingQuery
    case AwaitingQuery => AwaitingMarker
    case AwaitingMarker => AwaitingHit
    case AwaitingHit => AwaitingQuery
  }

  /** One iteration of the scan loop, on one line of the file. */
  function Step(s: ScanState, raw: Line): (t: ScanState)
    ensures Inv(s) ==> Inv(t)
    ensures s.foundHeader ==> t.foundHeader
  {
    var line := RStrip(raw);
    if IsBlank(line) then s
    else if !s.foundHeader && IsHeader(line) then s.(foundHeader := true)
    else if s.foundHeader && !s.newQuery then
      if IsQuery(line) then s.(newQuery := true) else s
    else if s.foundHeader && s.newQuery && !s.getNextHit then
      if IsMarker(line) then s.(getNextHit := true) else s
    else if s.foundHeader && s.newQuery && s.getNextHit then
      match HitSeqString(line)
      case Some(seqString) =>
        s.(newQuery := false, getNextHit := false, results := Tally(s.results, Strip(seqString)))
      case None => s
    else s
  }

  /** The scan's variables after the loop has seen `lines`. */
  function Run(lines: seq<Line>): (s: ScanState)
    ensures Inv(s)
  {
    if lines == [] then Start
    else Step(Run(lines[..|lines| - 1]), lines[|lines| - 1])
  }

  /** The scan loop itself: the three flags and `results`, updated in place line by line. */
  method CountTopHits(lines: seq<Line>) returns (foundHeader: bool, newQuery: bool, getNextHit: bool, results: map<string, nat>)
    ensures ScanState(foundHeader, newQuery, getNextHit, results) == Run(lines)
  {
    foundHeader, newQuery, getNextHit := false, false, false;
    results := map[];
    var n := 0;
    while n < |lines|
      invariant n <= |lines|
      invariant ScanState(foundHeader, newQuery, getNextHit, results) == Run(lines[..n])
    {
      foundHeader, newQuery, getNextHit, results := ScanLine(foundHeader, newQuery, getNextHit, results, lines[n]);
      assert lines[..n + 1][..n] == lines[..n];
      n := n + 1;
    }
    assert lines[..n] == lines;
  }

  /** The body of the scan loop, on one line of the file. */
  method ScanLine(foundHeader: bool, newQuery: bool, getNextHit: bool, results: map<string, nat>, raw: Line)
    returns (foundHeader': bool, newQuery': bool, getNextHit': bool, results': map<string, nat>)
    ensures ScanState(foundHeader', newQuery', getNextHit', results') ==
            Step(ScanState(foundHeader, newQuery, getNextHit, results), raw)
  {
    foundHeader', newQuery', getNextHit', results' := foundHeader, newQuery, getNextHit, results;
    var line := RStrip(raw);
    if IsBlank(line) {
      // skipped
    } else if !foundHeader && IsHeader(line) {
      foundHeader' := true;
    } else if foundHeader && !newQuery {
      if IsQuery(line) {
        newQuery' := true;
      }
    } else if foundHeader && newQuery && !getNextHit {
      if IsMarker(line) {
        getNextHit' := true;
      }
    } else if foundHeader && newQuery && getNextHit {
      var hitMatch := HitSeqString(line);
      if hitMatch.Some? {
        newQuery' := false;
        getNextHit' := false;
        var seqString := Strip(hitMatch.value);
        results' := CountOne(results, seqString);
      }
    }
  }

  /** The dictionary update for one top hit: start the key at 1 or add one to it. */
  method CountOne(results: map<string, nat>, seqString: string) returns (results': map<string, nat>)
    ensures results' == Tally(results, seqString)
  {
    if seqString in results {
      results' := results[seqString := results[seqString] + 1];
    } else {
      results' := results[seqString := 1];
    }
  }

  // ----- One line at a time -----

  /** A blank line (empty once right-stripped) changes nothing. */
  lemma BlankLineIgnored(s: ScanState, raw: Line)
    requires RStrip(raw) == []
    ensures Step(s, raw) == s
  {
  }

  /**
   The flags follow the four-phase machine: a line of the awaited shape moves
   to the next phase, any other line leaves the phase as it was, and only a
   top hit changes `results`.
   */
  lemma PhaseStep(s: ScanState, raw: Line)
    requires Inv(s)
    ensures
      var line := RStrip(raw);
      var taken := !IsBlank(line) && Accepts(PhaseOf(s), line);
      && PhaseOf(Step(s, raw)) == (if taken then NextPhase(PhaseOf(s)) else PhaseOf(s))
      && Step(s, raw).results ==
           (if taken && PhaseOf(s) == AwaitingHit then Tally(s.results, Strip(HitSeqString(line).value))
            else s.results)
  {
    var line := RStrip(raw);
    match PhaseOf(s)
    case AwaitingHeader =>
    case AwaitingQuery =>
    case AwaitingMarker =>
    case AwaitingHit =>
  }

  /** The awaited top hit: one key goes up by one, every other count stays, and the next query is awaited. */
  lemma TopHitStep(s: ScanState, raw: Line, seqString: string)
    requires Inv(s) && s.getNextHit
    requires HitSeqString(RStrip(raw)) == Some(seqString)
    ensures
      var t, key := Step(s, raw), Strip(seqString);
      && !t.newQuery && !t.getNextHit && t.foundHeader
      && t.results.Keys == s.results.Keys + {key}
      && t.results[key] == (if key in s.results then s.results[key] else 0) + 1
      && forall k :: k in s.results && k != key ==> t.results[k] == s.results[k]
  {
    HitLineIsNotBlank(RStrip(raw));
  }

  /** Before the header, nothing but `foundHeader` can change. */
  lemma BeforeHeaderStep(s: ScanState, raw: Line)
    requires !s.foundHeader
    ensures Step(s, raw).(foundHeader := false) == s
  {
  }

  /** Once the header is found, a later `BLASTN` line is ordinary content: outside a hit section it changes nothing. */
  lemma LaterHeaderIgnored(s: ScanState, raw: Line)
    requires Inv(s) && s.foundHeader && !s.getNextHit && IsHeader(RStrip(raw))
    ensures Step(s, raw) == s
  {
    var line := RStrip(raw);
    var rest := line[LeadingWs(line)..];
    assert rest[0] == 'B';
    MarkerAtColumnZero(line);
    if LeadingWs(line) == 0 {
      assert line[0] == rest[0];
    }
  }

  /** The marker is taken only while it is awaited. */
  lemma MarkerOnlyWhenAwaited(s: ScanState, raw: Line)
    requires Inv(s) && !s.getNextHit && Step(s, raw).getNextHit
    ensures PhaseOf(s) == AwaitingMarker && IsMarker(RStrip(raw))
  {
  }

  // ----- The whole file -----

  /** Until a header line has been seen, the scan stays in its initial state. */
  lemma {:induction false} NothingBeforeHeader(lines: seq<Line>)
    requires forall i :: 0 <= i < |lines| ==> !IsHeader(RStrip(lines[i]))
    ensures Run(lines) == Start
  {
    if lines != [] {
      NothingBeforeHeader(lines[..|lines| - 1]);
    }
  }

  /** `foundHeader` ends true exactly when some line of the file is a header line. */
  lemma {:induction false} FoundHeaderIff(lines: seq<Line>)
    ensures Run(lines).foundHeader <==> exists i :: 0 <= i < |lines| && IsHeader(RStrip(lines[i]))
  {
    if lines != [] {
      var init := lines[..|lines| - 1];
      FoundHeaderIff(init);
      var line := RStrip(lines[|lines| - 1]);
      if IsHeader(line) {
        assert "BLASTN"[0] in line;
      }
      if exists i :: 0 <= i < |init| && IsHeader(RStrip(init[i])) {
        var i :| 0 <= i < |init| && IsHeader(RStrip(init[i]));
        assert lines[i] == init[i];
      }
      if exists i :: 0 <= i < |lines| && IsHeader(RStrip(lines[i])) {
        var i :| 0 <= i < |lines| && IsHeader(RStrip(lines[i]));
        if i < |init| {
          assert init[i] == lines[i];
        }
      }
    }
  }

  /** `foundHeader` never goes back to false. */
  lemma {:induction false} HeaderStaysFound(lines: seq<Line>, more: seq<Line>)
    requires Run(lines).foundHeader
    ensures Run(lines + more).foundHeader
  {
    FoundHeaderIff(lines);
    FoundHeaderIff(lines + more);
    var i :| 0 <= i < |lines| && IsHeader(RStrip(lines[i]));
    assert (lines + more)[i] == lines[i];
  }

  /** Every key in `results` is a trimmed description holding a bar, and every count is at least one. */
  lemma {:induction false} ResultsWellFormed(lines: seq<Line>)
    ensures WellFormedTally(Run(lines).results)
  {
    if lines != [] {
      var init := lines[..|lines| - 1];
      ResultsWellFormed(init);
      var s := Run(init);
      var line := RStrip(lines[|lines| - 1]);
      PhaseStep(s, lines[|lines| - 1]);
      if HitSeqString(line).Some? {
        var x := HitSeqString(line).value;
        var q :| 0 <= q < |x| && x[q] == '|';
        StripKeeps(x, q);
        TallyKeepsWellFormed(s.results, Strip(x));
      }
    }
  }

  /** Whether the line `raw` is taken as the awaited line of phase `p`. */
  predicate Taken(s: ScanState, raw: Line, p: Phase)
    requires Inv(s)
  {
    var line := RStrip(raw);
    PhaseOf(s) == p && !IsBlank(line) && Accepts(p, line)
  }

  /** How many lines of `lines` were taken in phase `p`. */
  function TakenIn(lines: seq<Line>, p: Phase): nat
  {
    if lines == [] then 0
    else
      var init := lines[..|lines| - 1];
      TakenIn(init, p) + (if Taken(Run(init), lines[|lines| - 1], p) then 1 else 0)
  }

  /**
   The counts add up to the number of top-hit lines taken, and every `Query=`
   line taken has had its top hit tallied except possibly the last one, whose
   block is still open: at most one tally per query block.
   */
  lemma {:induction false} CountsAddUp(lines: seq<Line>)
    ensures Total(Run(lines).results) == TakenIn(lines, AwaitingHit)
    ensures TakenIn(lines, AwaitingHit) + (if Run(lines).newQuery then 1 else 0) == TakenIn(lines, AwaitingQuery)
  {
    if lines != [] {
      var init := lines[..|lines| - 1];
      CountsAddUp(init);
      var s := Run(init);
      var raw := lines[|lines| - 1];
      PhaseStep(s, raw);
      if Taken(s, raw, AwaitingHit) {
        TotalOfTally(s.results, Strip(HitSeqString(RStrip(raw)).value));
      }
    }
  }

  lemma AtMostOneTallyPerQuery(lines: seq<Line>)
    ensures Total(Run(lines).results) <= TakenIn(lines, AwaitingQuery)
  {
    CountsAddUp(lines);
  }

  /** A line with no whitespace at either end reaches the recognisers unchanged. */
  lemma Unpadded(l: string)
    requires |l| > 0 && !IsWs(l[0]) && !IsWs(l[|l| - 1])
    ensures RStrip(l) == l && LeadingWs(l) == 0 && !IsBlank(l)
  {
  }

  /** A header line, a query line and the marker line, as they open a report. */
  const HeaderLine: Line := "BLASTN 2.2.26+"
  const QueryLine: Line := "Query= seq1"
  const MarkerLine: Line := Marker

  /** The header line opens the report. */
  lemma HeaderLineStep()
    ensures Step(Start, HeaderLine) == ScanState(true, false, false, map[])
  {
    var a := HeaderLine;
    assert a[0] == 'B' && a[|a| - 1] == '+';
    Unpadded(a);
    assert IsHeader(a);
  }

  /** The query line, after the header, opens a query block. */
  lemma QueryLineStep()
    ensures Step(ScanState(true, false, false, map[]), QueryLine) == ScanState(true, true, false, map[])
  {
    var b := QueryLine;
    assert b[0] == 'Q' && b[|b| - 1] == '1';
    Unpadded(b);
    assert IsQuery(b);
  }

  /** The marker line, in a query block, opens the hit section. */
  lemma MarkerLineStep()
    ensures Step(ScanState(true, true, false, map[]), MarkerLine) == ScanState(true, true, true, map[])
  {
    var c := MarkerLine;
    assert c[0] == 'S' && c[|c| - 1] == ':';
    Unpadded(c);
    assert IsMarker(c);
  }

  /** Each of the four phases is reached. */
  lemma EveryPhaseReached()
    ensures PhaseOf(Run([])) == AwaitingHeader
    ensures PhaseOf(Run([HeaderLine])) == AwaitingQuery
    ensures PhaseOf(Run([HeaderLine, QueryLine])) == AwaitingMarker
    ensures PhaseOf(Run([HeaderLine, QueryLine, MarkerLine])) == AwaitingHit
  {
    var a, b, c := HeaderLine, QueryLine, MarkerLine;
    HeaderLineStep();
    QueryLineStep();
    MarkerLineStep();
    assert [a][..0] == [];
    assert [a, b][..1] == [a];
    assert [a, b, c][..2] == [a, b];
  }
}
