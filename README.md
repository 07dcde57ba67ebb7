# Contig Counter, modelled in Dafny

Contig Counter reads a BLASTN pairwise text report. For each query it finds the
top hit: the first hit line after the "Sequences producing significant
alignments:" marker. It counts how many queries had each description as their
top hit. It then prints the descriptions by descending count. The report is
printed only if the file had a `BLASTN` header line.

The model follows the script's own structure:

- `text.dfy` holds `Text`. It defines Python 2's whitespace and `rstrip`, `lstrip`
  and `strip`. It also holds `Wrappers`, which defines `Option`.
- `shapes.dfy` holds `Shapes`, the four line recognisers: header, `Query=`,
  marker and hit line. Each regular expression has a ghost partner that states,
  position by position, when the pattern matches. A lemma proves the recogniser
  agrees with it.
  - The hit pattern is
    `^\s*(?P<seqstring>.+\|.+?)\s{2,}(?P<score>.+)\s{2,}(?P<evalue>.+)$`.
  - For it, `HitSeqString` returns the group that Python's backtracking engine
    settles on. The engine tries the longest leading whitespace first, then the
    last usable `|`, then the shortest lazy tail.
- `tally.dfy` holds `Tallies`: the `results` dictionary update and the sum of its counts.
- `scanner.dfy` holds `Scanner`, the loop over the file's lines.
  - `CountTopHits` is the loop. It updates the three flags (`foundHeader`,
    `newQuery`, `getNextHit`) and `results` as locals, line by line.
  - `ScanLine` is the loop body.
  - The loop is proved equal to `Run`, a fold of the pure step function `Step`.
    The lemmas about the scan are stated over `Step` and `Run`.
  - The three flags encode four phases: awaiting the header, a `Query=` line,
    the marker, or the top hit.
- `report.dfy` holds `Report`.
  - `ReportRows` takes the dictionary's items in arbitrary order and sorts them
    by descending count.
  - `ContigReport` is the whole run: scan, then report or no report.

The input is the file's lines without their terminators (type `Scanner.Line`,
which excludes line feeds). Because `'\n'` is whitespace, `rstrip` gives the same
result with or without it. With no line feed in a line, the pattern `.` matches
every character, which is how the model reads `.`.

Notes on the script's behaviour:

- The hit line's description is not simply everything before the last two
  tokens. The lazy `.+?` takes at least one character after the last usable
  `|`. It then stops at the first position where two whitespace characters
  begin and the score and e-value can still follow. So the run of whitespace
  that ends the description starts at least two characters after the bar: for
  `ab|  x  y  z` the description is `ab|  x`.
- The marker must start in column 0 (`find(...) == 0`). An indented marker is
  ignored, unlike the header and `Query=` lines, which may be indented.
- Without a header, the script prints a warning and ends normally, with no
  report.

## Model

| member | source | states |
|---|---|---|
| `Text.LeadingWs` | contigcounter.py:52 | the run of `\s` at the start of a line: all whitespace, and the next character (if any) is not |
| `Text.LeadingWsStopsAt` | contigcounter.py:56 | leading whitespace ends exactly at the first non-space character |
| `Text.RStrip` | contigcounter.py:49 | `line.rstrip()`: a prefix of the line, only whitespace removed, ending in a non-space |
| `Text.LStrip` | contigcounter.py:70 | left half of `strip()`: a suffix, only whitespace removed, starting with a non-space |
| `Text.Strip` | contigcounter.py:70 | `seqstring.strip()`: the line's middle after its leading whitespace, with whitespace only after it, and no whitespace at either end |
| `Text.StripKeeps` | contigcounter.py:70 | stripping never drops a non-whitespace character |
| `Shapes.IsBlank` | contigcounter.py:50 | the blank-line test `re.match("^\s*$", line)`; `BlankIsRegex` proves it holds exactly when the greedy `\s*` reaches the end of the line |
| `Shapes.BlankIsRegex` | contigcounter.py:50 | a line is blank exactly when its leading whitespace is the whole line |
| `Shapes.IsHeader` | contigcounter.py:52 | the header test `re.match("^\s*BLASTN", line)`; `HeaderIsRegex` proves it agrees with the pattern |
| `Shapes.IsQuery` | contigcounter.py:56 | the `Query=` test `re.match("^\s*Query= (?P<queryName>.+)$", line)`; `QueryIsRegex` proves it agrees with the pattern |
| `Shapes.IsMarker` | contigcounter.py:61 | the marker test `line.find(...) == 0`, a prefix test; `MarkerAtColumnZero` proves a marker line is never indented |
| `Shapes.HeaderIsRegex` | contigcounter.py:52 | the header test holds exactly when `^\s*BLASTN` matches |
| `Shapes.QueryIsRegex` | contigcounter.py:56 | the `Query=` test holds exactly when `^\s*Query= (.+)$` matches |
| `Shapes.WordAfterWs` | contigcounter.py:56 | a word starting with a non-space can only be matched right after the whole leading whitespace |
| `Shapes.MarkerAtColumnZero` | contigcounter.py:61 | a marker line starts with `S` in column 0 and has no leading whitespace, so an indented marker is never accepted |
| `Shapes.HasWsPairFrom` | contigcounter.py:66 | true exactly when two whitespace characters, followed by at least one more character, occur from a position on |
| `Shapes.TailOkIsRegex` | contigcounter.py:66 | after a bar, the concrete tail test holds exactly when `\s{2,}(.+)\s{2,}(.+)$` can complete the match |
| `Shapes.FirstTail` | contigcounter.py:66 | the lazy `.+?`: the first position at which the tail matches, and none earlier; none at all when it returns None |
| `Shapes.LastBar` | contigcounter.py:66 | the greedy `.+` before `\|`: the last usable bar, and no usable bar after it |
| `Shapes.HitSeqString` | contigcounter.py:66 | the `seqstring` group, when present, contains a bar |
| `Shapes.ContinuesBounds` | contigcounter.py:66 | any way the hit pattern matches uses a usable bar, stays within the leading whitespace, and its tail is no earlier than the first one |
| `Shapes.FirstChoiceIsFirst` | contigcounter.py:66 | the choice `HitSeqString` makes comes before every other way the pattern can match, in the engine's order |
| `Shapes.HitSeqStringIsFirstMatch` | contigcounter.py:66-67 | `HitSeqString` finds a group exactly when the hit pattern matches, and it is the group of the engine's first match |
| `Shapes.LazyTailExample` | contigcounter.py:66-67 | on `ab\|  x  y  z` the `seqstring` group is `ab\|  x`: the lazy `.+?` takes a character after the bar before the whitespace run that ends it |
| `Shapes.HitLineIsNotBlank` | contigcounter.py:50-51 | a line the hit pattern accepts is not blank |
| `Tallies.Tally` | contigcounter.py:72-75 | the key is added or its count goes up by one; all other counts are unchanged |
| `Tallies.TotalWithout` | contigcounter.py:72-75 | the sum of counts equals any one count plus the sum of the rest |
| `Tallies.TotalOfTally` | contigcounter.py:72-75 | each tally adds exactly one to the sum of all counts |
| `Tallies.TallyKeepsWellFormed` | contigcounter.py:70-75 | tallying a trimmed key with a bar keeps every key trimmed, with a bar, and counted at least once |
| `Scanner.FlagsOf` | contigcounter.py:38-40 | every phase's flag triple satisfies `getNextHit ==> newQuery ==> foundHeader` |
| `Scanner.PhaseOf` | contigcounter.py:52-64 | each flag triple satisfying the invariant is exactly one phase's triple |
| `Scanner.Step` | contigcounter.py:48-75 | one iteration keeps the flag invariant, and never resets `foundHeader` |
| `Scanner.Run` | contigcounter.py:38-75 | the flag invariant holds after every prefix of the file |
| `Scanner.CountTopHits` | contigcounter.py:38-75 | the loop's final flags and `results` are those of `Run` on the whole file |
| `Scanner.ScanLine` | contigcounter.py:48-75 | the loop body changes the variables exactly as `Step` does |
| `Scanner.CountOne` | contigcounter.py:72-75 | the dictionary update starts a new key at 1 or adds one to an existing key, as `Tally` does |
| `Scanner.BlankLineIgnored` | contigcounter.py:49-51 | a line that is empty after `rstrip` changes no flag and no count |
| `Scanner.PhaseStep` | contigcounter.py:52-75 | an awaited line moves to the next phase and any other line is ignored; `results` changes only on a top hit, by one tally of its stripped `seqstring` |
| `Scanner.TopHitStep` | contigcounter.py:64-75 | a recognised hit while awaiting it clears `newQuery` and `getNextHit`, adds one to exactly one key and leaves the others unchanged |
| `Scanner.BeforeHeaderStep` | contigcounter.py:52-64 | before the header, a line can change only `foundHeader` |
| `Scanner.LaterHeaderIgnored` | contigcounter.py:52-62 | after the header, a `BLASTN` line outside a hit section is ordinary content and changes nothing |
| `Scanner.MarkerOnlyWhenAwaited` | contigcounter.py:60-62 | `getNextHit` is set only by a marker line while the marker is awaited |
| `Scanner.NothingBeforeHeader` | contigcounter.py:38-64 | a file without a header line leaves every flag false and `results` empty |
| `Scanner.FoundHeaderIff` | contigcounter.py:52-54 | `foundHeader` ends true exactly when some line is a header line |
| `Scanner.HeaderStaysFound` | contigcounter.py:52-55 | once `foundHeader` is true, no further line makes it false |
| `Scanner.ResultsWellFormed` | contigcounter.py:66-75 | every tallied key contains a bar and has no leading or trailing whitespace, and every count is at least 1 |
| `Scanner.CountsAddUp` | contigcounter.py:56-75 | the sum of counts is the number of top hits taken; with the still-open block, that is the number of `Query=` lines taken |
| `Scanner.AtMostOneTallyPerQuery` | contigcounter.py:56-75 | there are never more tallies than `Query=` lines taken |
| `Scanner.Unpadded` | contigcounter.py:49-52 | a line without whitespace at either end reaches the recognisers unchanged and is not blank |
| `Scanner.HeaderLineStep` | contigcounter.py:52-54 | a `BLASTN` line at the start sets only `foundHeader` |
| `Scanner.QueryLineStep` | contigcounter.py:55-58 | after the header, a `Query=` line sets `newQuery` and nothing else |
| `Scanner.MarkerLineStep` | contigcounter.py:60-62 | in a query block, the marker line sets `getNextHit` and nothing else |
| `Scanner.EveryPhaseReached` | contigcounter.py:52-62 | each of the four phases is reached by some file |
| `Report.Insert` | contigcounter.py:83 | inserting a row adds exactly that row to the multiset of rows |
| `Report.InsertHolds` | contigcounter.py:83 | the rows after inserting are the new row and the old rows |
| `Report.InsertKeepsOrder` | contigcounter.py:83 | inserting into rows in non-increasing count order keeps that order |
| `Report.InsertKeepsDistinct` | contigcounter.py:83 | inserting a row with a new key keeps keys distinct |
| `Report.SortByCount` | contigcounter.py:83 | `sorted(..., key=count, reverse=True)`: a permutation in non-increasing count order |
| `Report.SortKeepsDistinct` | contigcounter.py:83 | sorting keeps keys distinct |
| `Report.ReportRows` | contigcounter.py:83-84 | the rows are exactly the entries of `results`, each listed once, in non-increasing count order |
| `Report.ContigReport` | contigcounter.py:77-84 | the report exists exactly when a header was found; it lists every entry once, by descending count, each count at least 1 and each key trimmed and holding a bar |

## Left out

- The version banner and command-line handling, including the `-debug` switch and its prints (contigcounter.py:16-21, 33-36, 53, 59, 63, 71). These do not affect the flags or the counts.
- Opening and closing the file and the I/O error path (contigcounter.py:23-30, 89). The input is a sequence of lines instead. If opening fails, the script goes on and fails at the loop; this is not modelled.
- The report's text layout: headings, column widths and the trailing blank line (contigcounter.py:80-82, 84, 86). The report is modelled as the ordered rows, or as no rows when the warning is printed.
- The query name captured at contigcounter.py:56. It is used only by the debug prints at lines 59 and 63.
- The `score` and `evalue` groups of the hit pattern. They decide whether a line matches, which is modelled. Their values are never used.
- Python 2 strings are bytes. Dafny characters are Unicode, and only the six ASCII whitespace characters count as whitespace.
- The dictionary's iteration order is arbitrary in Python 2. The model takes the items in an arbitrary order too, so the order among equal counts is not determined.
- Report.SortByCount: the contract states permutation and descending order, not stability. With an arbitrary input order, stability promises nothing about the report.
