/** word_error_rate: one row of the distance table, overwritten in place row after row. */
module WordErrorRate {
  import opened Text
  import opened EditDistance
  import opened Numbers

  /** None for two empty lists, 1 for an empty reference, else edits per reference word. */
  function Rate(reference: seq<Word>, hypothesis: seq<Word>): Option<real> {
    if reference == [] && hypothesis == [] then None
    else if reference == [] then Some(1.0)
    else Some(Distance(reference, hypothesis) as real / |reference| as real)
  }

  lemma NextCell(a: seq<Word>, b: seq<Word>, i: nat, j: nat)
    requires 0 < i <= |a| && 0 < j <= |b|
    ensures Distance(a[..i], b[..j]) ==
            if a[i - 1] == b[j - 1] then Distance(a[..i - 1], b[..j - 1])
            else 1 + Min(Distance(a[..i - 1], b[..j - 1]), Min(Distance(a[..i - 1], b[..j]), Distance(a[..i], b[..j - 1])))
  {
    assert Init(a[..i]) == a[..i - 1] && Init(b[..j]) == b[..j - 1];
  }

  /** row holds, from column lo up to hi, the distances between the first i reference words and
      each prefix of the hypothesis. */
  ghost predicate RowHolds(a: seq<Word>, b: seq<Word>, i: nat, row: seq<nat>, lo: nat, hi: nat)
    requires i <= |a| && |row| == |b| + 1 && hi <= |row|
  {
    forall j :: lo <= j < hi ==> row[j] == Distance(a[..i], b[..j])
  }

  /** The inner loop: row i - 1 becomes row i in the same buffer. */
  method OverwriteRow(reference: seq<Word>, hypothesis: seq<Word>, i: nat, distances: array<nat>)
    requires 0 < i <= |reference| && distances.Length == |hypothesis| + 1
    requires RowHolds(reference, hypothesis, i - 1, distances[..], 0, |hypothesis| + 1)
    modifies distances
    ensures RowHolds(reference, hypothesis, i, distances[..], 0, |hypothesis| + 1)
  {
    var m := |hypothesis|;
    var previousDiagonal := distances[0];
    distances[0] := i;
    assert hypothesis[..0] == [];
    for j := 1 to m + 1
      invariant previousDiagonal == Distance(reference[..i - 1], hypothesis[..j - 1])
      invariant RowHolds(reference, hypothesis, i, distances[..], 0, j)
      invariant RowHolds(reference, hypothesis, i - 1, distances[..], j, m + 1)
    {
      NextCell(reference, hypothesis, i, j);
      assert distances[..][j] == Distance(reference[..i - 1], hypothesis[..j]);
      assert distances[..][j - 1] == Distance(reference[..i], hypothesis[..j - 1]);
      var previousRow := distances[j];
      distances[j] :=
        if reference[i - 1] == hypothesis[j - 1] then previousDiagonal
        else 1 + Min(previousDiagonal, Min(distances[j], distances[j - 1]));
      previousDiagonal := previousRow;
    }
  }

  /** The program's loops. The result is stated through cheapest edit scripts as well as through
      the recurrence. */
  method Compute(reference: seq<Word>, hypothesis: seq<Word>) returns (rate: Option<real>)
    ensures rate == Rate(reference, hypothesis)
    ensures reference != [] ==>
              && rate.Some?
              && exists d: nat :: IsLeastCost(reference, hypothesis, d) && rate.value == d as real / |reference| as real
  {
    if reference == [] && hypothesis == [] {
      return None;
    }
    if reference == [] {
      return Some(1.0);
    }
    var n, m := |reference|, |hypothesis|;
    var distances := new nat[m + 1](j => j);
    assert RowHolds(reference, hypothesis, 0, distances[..], 0, m + 1);
    for i := 1 to n + 1
      invariant RowHolds(reference, hypothesis, i - 1, distances[..], 0, m + 1)
    {
      OverwriteRow(reference, hypothesis, i, distances);
    }
    assert reference[..n] == reference && hypothesis[..m] == hypothesis;
    assert distances[..][m] == Distance(reference, hypothesis);
    DistanceIsLeastCost(reference, hypothesis);
    rate := Some(distances[m] as real / n as real);
  }
}
