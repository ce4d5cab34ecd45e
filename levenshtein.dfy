/** `levenshteinDistance` and `findClosestString` of the utility module: a case-insensitive
    edit distance filled into a table, and a scan for the first closest candidate. */
module Levenshtein {
  import opened Common
  import opened Strings

  function Min3(x: nat, y: nat, z: nat): nat {
    if x <= y && x <= z then x else if y <= z then y else z
  }

  /** The edit distance between `a[..i]` and `b[..j]`: the recurrence the table follows. A
      matching last character costs nothing; otherwise one deletion, insertion or
      substitution is added to the cheapest of the three smaller problems. */
  function Dist(a: string, b: string, i: nat, j: nat): nat
    requires i <= |a| && j <= |b|
    decreases i + j
  {
    if i == 0 then j
    else if j == 0 then i
    else if a[i - 1] == b[j - 1] then Dist(a, b, i - 1, j - 1)
    else 1 + Min3(Dist(a, b, i - 1, j), Dist(a, b, i, j - 1), Dist(a, b, i - 1, j - 1))
  }

  /** The distance the bot uses: edit distance of the lower-cased strings. */
  function Distance(s1: string, s2: string): nat {
    var a, b := Lower(s1), Lower(s2);
    Dist(a, b, |a|, |b|)
  }

  /** The distance is zero exactly for equal prefixes. */
  lemma {:induction false} DistZeroIff(a: string, b: string, i: nat, j: nat)
    requires i <= |a| && j <= |b|
    ensures Dist(a, b, i, j) == 0 <==> i == j && a[..i] == b[..j]
    decreases i + j
  {
    if i > 0 && j > 0 {
      DistZeroIff(a, b, i - 1, j - 1);
      if i == j && a[..i] == b[..j] {
        assert a[i - 1] == a[..i][i - 1] == b[..j][j - 1] == b[j - 1];
        assert a[..i - 1] == a[..i][..i - 1];
        assert b[..j - 1] == b[..j][..j - 1];
      }
      if a[i - 1] == b[j - 1] && i - 1 == j - 1 && a[..i - 1] == b[..j - 1] {
        assert a[..i] == a[..i - 1] + [a[i - 1]];
        assert b[..j] == b[..j - 1] + [b[j - 1]];
      }
    }
  }

  /** The distance is at most the longer length. */
  lemma {:induction false} DistAtMostLonger(a: string, b: string, i: nat, j: nat)
    requires i <= |a| && j <= |b|
    ensures Dist(a, b, i, j) <= Max(i, j)
    decreases i + j
  {
    if i > 0 && j > 0 {
      DistAtMostLonger(a, b, i - 1, j - 1);
    }
  }

  /** The distance is at least the difference of the lengths. */
  lemma {:induction false} DistAtLeastDifference(a: string, b: string, i: nat, j: nat)
    requires i <= |a| && j <= |b|
    ensures Dist(a, b, i, j) >= Max(i - j, j - i)
    decreases i + j
  {
    if i > 0 && j > 0 {
      DistAtLeastDifference(a, b, i - 1, j - 1);
      if a[i - 1] != b[j - 1] {
        DistAtLeastDifference(a, b, i - 1, j);
        DistAtLeastDifference(a, b, i, j - 1);
      }
    }
  }

  /** Zero exactly for strings equal up to case, at most the longer length, at least the
      difference of the lengths, and blind to case. */
  lemma DistanceProperties(s1: string, s2: string)
    ensures Distance(s1, s2) == 0 <==> Lower(s1) == Lower(s2)
    ensures Distance(s1, s2) <= Max(|s1|, |s2|)
    ensures Distance(s1, s2) >= Max(|s1| - |s2|, |s2| - |s1|)
    ensures Distance(Lower(s1), s2) == Distance(s1, s2) == Distance(s1, Lower(s2))
  {
    var a, b := Lower(s1), Lower(s2);
    DistZeroIff(a, b, |a|, |b|);
    assert a[..|a|] == a && b[..|b|] == b;
    DistAtMostLonger(a, b, |a|, |b|);
    DistAtLeastDifference(a, b, |a|, |b|);
    LowerIdempotent(s1);
    LowerIdempotent(s2);
  }

  /** Row `k` of the table holds the distances from the first `k` characters of `left`. */
  ghost predicate RowFilled(dp: array2<nat>, left: string, right: string, k: nat)
    requires dp.Length0 == |left| + 1 && dp.Length1 == |right| + 1 && k <= |left|
    reads dp
  {
    forall l {:trigger dp[k, l]} :: 0 <= l <= |right| ==> dp[k, l] == Dist(left, right, k, l)
  }

  /** One row of the table: row `i` filled from row `i - 1`, every other cell untouched. */
  method FillRow(dp: array2<nat>, left: string, right: string, i: nat)
    requires dp.Length0 == |left| + 1 && dp.Length1 == |right| + 1 && 1 <= i <= |left|
    requires RowFilled(dp, left, right, i - 1)
    requires dp[i, 0] == i
    modifies dp
    ensures RowFilled(dp, left, right, i)
    ensures forall k, l :: 0 <= k < dp.Length0 && 0 <= l < dp.Length1 && k != i ==> dp[k, l] == old(dp[k, l])
  {
    var j := 1;
    while j <= |right|
      invariant 1 <= j <= |right| + 1
      invariant forall l {:trigger dp[i, l]} :: 0 <= l < j ==> dp[i, l] == Dist(left, right, i, l)
      invariant forall k, l :: 0 <= k < dp.Length0 && 0 <= l < dp.Length1 && k != i ==> dp[k, l] == old(dp[k, l])
    {
      if left[i - 1] == right[j - 1] {
        dp[i, j] := dp[i - 1, j - 1];
      } else {
        dp[i, j] := 1 + Min3(dp[i - 1, j], dp[i, j - 1], dp[i - 1, j - 1]);
      }
      j := j + 1;
    }
  }

  /** `levenshteinDistance(s1, s2)`: the table `dp` is filled row by row; `dp[i, j]` is the
      distance between the first `i` characters of one lower-cased string and the first `j`
      of the other. */
  method LevenshteinDistance(s1: string, s2: string) returns (d: nat)
    ensures d == Distance(s1, s2)
  {
    var left, right := Lower(s1), Lower(s2);
    var m, n := |left|, |right|;
    var dp := new nat[m + 1, n + 1];
    var i := 0;
    while i <= m
      invariant 0 <= i <= m + 1
      invariant forall k :: 0 <= k < i ==> dp[k, 0] == k
    {
      dp[i, 0] := i;
      i := i + 1;
    }
    var j := 0;
    while j <= n
      invariant 0 <= j <= n + 1
      invariant forall k :: 0 <= k <= m ==> dp[k, 0] == k
      invariant forall l :: 0 <= l < j ==> dp[0, l] == l
    {
      dp[0, j] := j;
      j := j + 1;
    }
    i := 1;
    while i <= m
      invariant 1 <= i <= m + 1
      invariant RowFilled(dp, left, right, i - 1)
      invariant forall k :: i <= k <= m ==> dp[k, 0] == k
    {
      FillRow(dp, left, right, i);
      i := i + 1;
    }
    d := dp[m, n];
  }

  // ---------------------------------------------------------------------------------
  // findClosestString

  /** An element of the candidate array: only strings are compared. */
  datatype Element = Text(s: string) | NonText

  /** The threshold actually used: a finite one clamped at zero, otherwise 2. */
  function EffectiveThreshold(threshold: Number): nat {
    if threshold.Finite? then Max(0, threshold.value) as nat else 2
  }

  /** The loop of `findClosestString` from `best` on: a candidate replaces the best so far
      only when strictly closer. */
  function Scan(target: string, arr: seq<Element>, best: Option<(nat, string)>): Option<(nat, string)>
    decreases |arr|
  {
    if arr == [] then best
    else if arr[0].NonText? then Scan(target, arr[1..], best)
    else
      var d := Distance(target, arr[0].s);
      Scan(target, arr[1..], if best.None? || d < best.value.0 then Some((d, arr[0].s)) else best)
  }

  /** Nothing closer than distance zero can follow. */
  lemma {:induction false} ScanFromZero(target: string, arr: seq<Element>, s: string)
    ensures Scan(target, arr, Some((0, s))) == Some((0, s))
    decreases |arr|
  {
    if arr != [] {
      ScanFromZero(target, arr[1..], s);
    }
  }

  /** The scan finds nothing exactly when there is no best so far and no string to compare;
      otherwise it ends on the best so far or on the first string of `arr` strictly closer
      than it and at least as close as every string of `arr`. */
  lemma {:induction false} ScanResult(target: string, arr: seq<Element>, best: Option<(nat, string)>)
    ensures Scan(target, arr, best).None? <==> best.None? && forall k :: 0 <= k < |arr| ==> arr[k].NonText?
    ensures Scan(target, arr, best).Some? ==>
      var (d, s) := Scan(target, arr, best).value;
      && (forall k :: 0 <= k < |arr| && arr[k].Text? ==> d <= Distance(target, arr[k].s))
      && (best.Some? ==> d <= best.value.0)
      && ((best.Some? && (d, s) == best.value)
          || exists k :: 0 <= k < |arr| && arr[k] == Text(s) && d == Distance(target, s)
               && (best.Some? ==> d < best.value.0)
               && forall l :: 0 <= l < k && arr[l].Text? ==> Distance(target, arr[l].s) > d)
    decreases |arr|
  {
    if arr != [] {
      var next := if arr[0].NonText? then best
                  else
                    var d := Distance(target, arr[0].s);
                    if best.None? || d < best.value.0 then Some((d, arr[0].s)) else best;
      ScanResult(target, arr[1..], next);
      assert forall k :: 1 <= k < |arr| ==> arr[k] == arr[1..][k - 1];
      var r := Scan(target, arr, best);
      if r.Some? {
        var (d, s) := r.value;
        if next.Some? && (d, s) == next.value && next != best {
          assert arr[0] == Text(s);
        } else if !(best.Some? && (d, s) == best.value) {
          var k :| 0 <= k < |arr[1..]| && arr[1..][k] == Text(s) && d == Distance(target, s)
                   && (next.Some? ==> d < next.value.0)
                   && forall l :: 0 <= l < k && arr[1..][l].Text? ==> Distance(target, arr[1..][l].s) > d;
          assert arr[k + 1] == Text(s);
          forall l | 0 <= l < k + 1 && arr[l].Text?
            ensures Distance(target, arr[l].s) > d
          {
            if l > 0 {
              assert arr[l] == arr[1..][l - 1];
            }
          }
        }
      }
    }
  }

  /** `findClosestString(string, array, threshold)` with `arr` the array, absent when the
      argument is not an array. */
  method FindClosestString(target: string, arr: Option<seq<Element>>, threshold: Number) returns (r: Option<string>)
    ensures arr.None? || arr.value == [] ==> r.None?
    ensures arr.Some? && arr.value != [] ==>
      r == match Scan(target, arr.value, None)
           case None => None
           case Some((d, s)) => if d > EffectiveThreshold(threshold) then None else Some(s)
  {
    if arr.None? || |arr.value| == 0 {
      return None;
    }
    var a := arr.value;
    var limit := EffectiveThreshold(threshold);
    var best: Option<(nat, string)> := None;
    var i := 0;
    while i < |a|
      invariant 0 <= i <= |a|
      invariant Scan(target, a[i..], best) == Scan(target, a, None)
    {
      var current := a[i];
      assert a[i..] == [current] + a[i + 1..];
      if current.Text? {
        var distance := LevenshteinDistance(target, current.s);
        if best.None? || distance < best.value.0 {
          best := Some((distance, current.s));
        }
      }
      if best.Some? && best.value.0 == 0 {
        ScanFromZero(target, a[i + 1..], best.value.1);
        assert best == Scan(target, a, None);
        break;
      }
      i := i + 1;
    }
    assert i == |a| ==> a[i..] == [];
    assert best == Scan(target, a, None);
    if best.None? {
      return None;
    }
    r := if best.value.0 > limit then None else Some(best.value.1);
  }

  /** What `findClosestString` promises: nothing for an empty or non-array argument or one
      without strings; otherwise the first string of least distance, unless that distance
      is above the threshold. */
  lemma FindClosestSpec(target: string, arr: seq<Element>, threshold: Number)
    ensures Scan(target, arr, None).None? <==> forall k :: 0 <= k < |arr| ==> arr[k].NonText?
    ensures Scan(target, arr, None).Some? ==>
      var (d, s) := Scan(target, arr, None).value;
      exists k :: 0 <= k < |arr| && arr[k] == Text(s) && d == Distance(target, s)
        && (forall l :: 0 <= l < |arr| && arr[l].Text? ==> d <= Distance(target, arr[l].s))
        && (forall l :: 0 <= l < k && arr[l].Text? ==> Distance(target, arr[l].s) > d)
  {
    ScanResult(target, arr, None);
  }
}
