/**
 The `results` dictionary: top-hit description to number of queries whose top
 hit it was.
 */
module Tallies {
  import opened Text

  /** Record one more top hit for `key`: the dictionary update of the scan loop. */
  function Tally(m: map<string, nat>, key: string): (r: map<string, nat>)
    ensures r.Keys == m.Keys + {key}
    ensures r[key] == (if key in m then m[key] else 0) + 1
    ensures forall k :: k in m && k != key ==> r[k] == m[k]
  {
    if key in m then m[key := m[key] + 1] else m[key := 1]
  }

  /** The sum of all counts. */
  ghost function Total(m: map<string, nat>): nat
    decreases |m|
  {
    if m == map[] then 0
    else
      var k :| k in m;
      m[k] + Total(m - {k})
  }

  /** `Total` does not depend on which key it takes out first. */
  lemma {:induction false} TotalWithout(m: map<string, nat>, key: string)
    requires key in m
    ensures Total(m) == m[key] + Total(m - {key})
    decreases |m|
  {
    var k :| k in m && Total(m) == m[k] + Total(m - {k});
    if k != key {
      TotalWithout(m - {k}, key);
      TotalWithout(m - {key}, k);
      assert m - {k} - {key} == m - {key} - {k};
    }
  }

  /** One tally adds exactly one to the sum of all counts. */
  lemma TotalOfTally(m: map<string, nat>, key: string)
    ensures Total(Tally(m, key)) == Total(m) + 1
  {
    var r := Tally(m, key);
    TotalWithout(r, key);
    assert r - {key} == m - {key};
    if key in m {
      TotalWithout(m, key);
    } else {
      assert m - {key} == m;
    }
  }

  /** Every key is a `seqstring` group after `strip()`: it holds a bar and is trimmed. */
  predicate WellFormedKey(k: string) {
    '|' in k && !IsWs(k[0]) && !IsWs(k[|k| - 1])
  }

  /** Every recorded key is well formed and has been counted at least once. */
  predicate WellFormedTally(m: map<string, nat>) {
    forall k :: k in m ==> m[k] >= 1 && WellFormedKey(k)
  }

  lemma TallyKeepsWellFormed(m: map<string, nat>, key: string)
    requires WellFormedTally(m) && WellFormedKey(key)
    ensures WellFormedTally(Tally(m, key))
  {
  }
}
