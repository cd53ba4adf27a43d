/**
 * The Levenshtein edit distance (commons-lang StringUtils.getLevenshteinDistance):
 * the least number of single-character insertions, deletions and substitutions
 * that turn one string into the other.
 */
module Levenshtein {

  function Min3(x: nat, y: nat, z: nat): nat
  {
    if x <= y && x <= z then x else if y <= z then y else z
  }

  function Max(x: nat, y: nat): nat { if x < y then y else x }

  function Abs(x: int): nat { if x < 0 then -x else x }

  /** Edit distance by its recursive definition: delete from `a`, insert into `a`, or substitute. */
  function Distance(a: string, b: string): (r: nat)
    ensures r <= |a| + |b|
    ensures |a| == 0 || |b| == 0 ==> r == |a| + |b|
    decreases |a| + |b|
  {
    if |a| == 0 then |b|
    else if |b| == 0 then |a|
    else Min3(Distance(a[1..], b) + 1,
              Distance(a, b[1..]) + 1,
              Distance(a[1..], b[1..]) + (if a[0] == b[0] then 0 else 1))
  }

  /** The distance does not depend on the order of the arguments. */
  lemma {:induction false} DistanceSymmetric(a: string, b: string)
    ensures Distance(a, b) == Distance(b, a)
    decreases |a| + |b|
  {
    if |a| != 0 && |b| != 0 {
      DistanceSymmetric(a[1..], b);
      DistanceSymmetric(a, b[1..]);
      DistanceSymmetric(a[1..], b[1..]);
    }
  }

  /** A string is at distance 0 from itself. */
  lemma {:induction false} DistanceToSelf(a: string)
    ensures Distance(a, a) == 0
  {
    if |a| != 0 {
      DistanceToSelf(a[1..]);
    }
  }

  /** Distance 0 means equal strings. */
  lemma {:induction false} DistanceZeroMeansEqual(a: string, b: string)
    requires Distance(a, b) == 0
    ensures a == b
    decreases |a| + |b|
  {
    if |a| != 0 && |b| != 0 {
      assert a[0] == b[0] && Distance(a[1..], b[1..]) == 0;
      DistanceZeroMeansEqual(a[1..], b[1..]);
      assert a == [a[0]] + a[1..] && b == [b[0]] + b[1..];
    }
  }

  /** The distance is 0 exactly when the strings are equal. */
  lemma DistanceZeroIffEqual(a: string, b: string)
    ensures Distance(a, b) == 0 <==> a == b
  {
    if a == b {
      DistanceToSelf(a);
    } else if Distance(a, b) == 0 {
      DistanceZeroMeansEqual(a, b);
    }
  }

  /** Substituting position by position and then inserting or deleting the rest is never beaten. */
  lemma {:induction false} DistanceAtMostLongerLength(a: string, b: string)
    ensures Distance(a, b) <= Max(|a|, |b|)
    decreases |a| + |b|
  {
    if |a| != 0 && |b| != 0 {
      DistanceAtMostLongerLength(a[1..], b[1..]);
    }
  }

  /** At least the difference in length must be inserted or deleted. */
  lemma {:induction false} DistanceAtLeastLengthDifference(a: string, b: string)
    ensures Distance(a, b) >= Abs(|a| - |b|)
    decreases |a| + |b|
  {
    if |a| != 0 && |b| != 0 {
      DistanceAtLeastLengthDifference(a[1..], b);
      DistanceAtLeastLengthDifference(a, b[1..]);
      DistanceAtLeastLengthDifference(a[1..], b[1..]);
    }
  }
}
