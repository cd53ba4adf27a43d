/**
 * Counting the non-overlapping, left-to-right occurrences of search terms in a
 * string, as the inner loops of countOccurrences do with String.indexOf, and the
 * argument check that precedes the scan, both as written and as intended.
 */
module Occurrences {
  import opened Wrappers

  /** `t` occurs in `s` starting at index `k`. */
  predicate MatchAt(s: string, t: string, k: nat)
  {
    k + |t| <= |s| && s[k..k + |t|] == t
  }

  /** String.indexOf(t, from): the first occurrence at or after `from`, or -1. */
  function IndexOf(s: string, t: string, from: nat): (r: int)
    ensures r == -1 || (from <= r && MatchAt(s, t, r))
    ensures r != -1 ==> forall k :: from <= k < r ==> !MatchAt(s, t, k)
    ensures r == -1 ==> forall k :: from <= k ==> !MatchAt(s, t, k)
    decreases |s| - from
  {
    if from + |t| > |s| then -1
    else if s[from..from + |t|] == t then from
    else IndexOf(s, t, from + 1)
  }

  /** Occurrences counted from `from`, resuming after the end of each one found. */
  function CountFrom(s: string, t: string, from: nat): (r: nat)
    requires |t| > 0
    decreases |s| - from
  {
    var k := IndexOf(s, t, from);
    if k == -1 then 0 else 1 + CountFrom(s, t, k + |t|)
  }

  /** The number of non-overlapping occurrences of a non-empty `t` in `s`. */
  function Count(s: string, t: string): (r: nat)
    requires |t| > 0
  {
    CountFrom(s, t, 0)
  }

  /**
   * An independent reference: walk `s` from position `i`; on a match count it
   * and step over the whole match, otherwise step over one character.
   */
  function GreedyFrom(s: string, t: string, i: nat): nat
    requires |t| > 0
    decreases |s| - i
  {
    if i + |t| > |s| then 0
    else if MatchAt(s, t, i) then 1 + GreedyFrom(s, t, i + |t|)
    else GreedyFrom(s, t, i + 1)
  }

  lemma {:induction false} SkipNonMatches(s: string, t: string, from: nat, k: nat)
    requires |t| > 0 && from <= k
    requires forall j :: from <= j < k ==> !MatchAt(s, t, j)
    ensures GreedyFrom(s, t, from) == GreedyFrom(s, t, k)
    decreases k - from
  {
    if from < k && from + |t| <= |s| {
      assert !MatchAt(s, t, from);
      SkipNonMatches(s, t, from + 1, k);
    }
  }

  /** The indexOf-driven count agrees with the greedy reference from every position. */
  lemma {:induction false} CountFromIsGreedy(s: string, t: string, from: nat)
    requires |t| > 0
    ensures CountFrom(s, t, from) == GreedyFrom(s, t, from)
    decreases |s| - from
  {
    var k := IndexOf(s, t, from);
    if k == -1 {
      SkipNonMatches(s, t, from, from + |s|);
    } else {
      SkipNonMatches(s, t, from, k);
      CountFromIsGreedy(s, t, k + |t|);
    }
  }

  /** Count is the greedy non-overlapping count over the whole string. */
  lemma CountIsGreedy(s: string, t: string)
    requires |t| > 0
    ensures Count(s, t) == GreedyFrom(s, t, 0)
  {
    CountFromIsGreedy(s, t, 0);
  }

  lemma MulSucc(a: nat, b: nat)
    ensures (a + 1) * b == a * b + b
  {
  }

  /** The occurrences counted do not overlap: together they fit in what is left of `s`. */
  lemma {:induction false} CountFromFits(s: string, t: string, from: nat)
    requires |t| > 0 && from <= |s|
    ensures CountFrom(s, t, from) * |t| <= |s| - from
    decreases |s| - from
  {
    var k := IndexOf(s, t, from);
    if k != -1 {
      CountFromFits(s, t, k + |t|);
      MulSucc(CountFrom(s, t, k + |t|), |t|);
    }
  }

  /** The count is positive exactly when `t` occurs somewhere in `s`. */
  lemma CountPositiveIffOccurs(s: string, t: string)
    requires |t| > 0
    ensures Count(s, t) > 0 <==> exists k :: MatchAt(s, t, k)
  {
    var k := IndexOf(s, t, 0);
    if k != -1 {
      assert MatchAt(s, t, k);
    }
  }

  // ---------------------------------------------------------------------------
  // Summing over the search terms
  // ---------------------------------------------------------------------------

  predicate NonEmptyTerms(terms: seq<string>)
  {
    forall i :: 0 <= i < |terms| ==> |terms[i]| > 0
  }

  /** The sum over the search terms, in order, of each term's count. */
  function CountAll(s: string, terms: seq<string>): nat
    requires NonEmptyTerms(terms)
  {
    if terms == [] then 0
    else CountAll(s, terms[..|terms| - 1]) + Count(s, terms[|terms| - 1])
  }

  /** Taking one more term adds that term's count. */
  lemma CountAllStep(s: string, terms: seq<string>, j: nat)
    requires NonEmptyTerms(terms) && j < |terms|
    ensures CountAll(s, terms[..j + 1]) == CountAll(s, terms[..j]) + Count(s, terms[j])
  {
    assert terms[..j + 1][..j] == terms[..j];
  }

  /** The sum is 0 exactly when no term occurs at all. */
  lemma {:induction false} CountAllZeroIffNoneOccurs(s: string, terms: seq<string>)
    requires NonEmptyTerms(terms)
    ensures CountAll(s, terms) == 0 <==> forall i :: 0 <= i < |terms| ==> Count(s, terms[i]) == 0
    decreases |terms|
  {
    if terms != [] {
      var init := terms[..|terms| - 1];
      CountAllZeroIffNoneOccurs(s, init);
      assert forall i :: 0 <= i < |init| ==> init[i] == terms[i];
    }
  }

  /** A single term counts as itself, and adding a term never lowers the sum. */
  lemma {:induction false} CountAllAtLeastEachTerm(s: string, terms: seq<string>, i: nat)
    requires NonEmptyTerms(terms) && i < |terms|
    ensures Count(s, terms[i]) <= CountAll(s, terms)
    decreases |terms|
  {
    if i < |terms| - 1 {
      CountAllAtLeastEachTerm(s, terms[..|terms| - 1], i);
    }
  }

  // ---------------------------------------------------------------------------
  // The argument check before the scan
  // ---------------------------------------------------------------------------

  const ArrayMessage := "Parameter array must not be empty"
  const TermMessage := "Search terms must not be empty"
  const NamePrefix := "Occurances of "

  /**
   * The check and the name lookup as written: the guard passes only for an empty
   * array, and the name then reads the first element of that empty array.
   */
  function GuardAsWritten(terms: seq<string>): (r: Result<string, Error>)
    ensures r.Failure?
    ensures |terms| > 0 ==> r.error == IllegalArgument(ArrayMessage)
    ensures |terms| == 0 ==> r.error == ArrayIndexOutOfBounds
  {
    if |terms| != 0 then Failure(IllegalArgument(ArrayMessage))
    else Failure(ArrayIndexOutOfBounds)
  }

  /** The check as intended: a non-empty array of non-empty terms, named after the first. */
  function Guard(terms: seq<string>): (r: Result<string, Error>)
    ensures r.Success? <==> |terms| > 0 && NonEmptyTerms(terms)
    ensures r.Success? ==> r.value == NamePrefix + terms[0]
    ensures |terms| == 0 ==> r == Failure(IllegalArgument(ArrayMessage))
  {
    if |terms| == 0 then Failure(IllegalArgument(ArrayMessage))
    else if exists i :: 0 <= i < |terms| && terms[i] == "" then Failure(IllegalArgument(TermMessage))
    else Success(NamePrefix + terms[0])
  }

  /** Every input on which the intended check succeeds is refused by the check as written. */
  lemma GuardAsWrittenRefusesValidInput(terms: seq<string>)
    requires Guard(terms).Success?
    ensures GuardAsWritten(terms) == Failure(IllegalArgument(ArrayMessage))
  {
  }

  // ---------------------------------------------------------------------------
  // The inner while loop, step by step
  // ---------------------------------------------------------------------------

  /**
   * The loop `while (lastIndex != -1)` started in state (lastIndex, count) and
   * allowed at most `n` iterations of its body; the result is the state reached.
   */
  function RunSearch(s: string, t: string, lastIndex: int, count: int, n: nat): (r: (int, int))
    requires lastIndex >= -1
    ensures r.0 >= -1
    decreases n
  {
    if n == 0 || lastIndex == -1 then (lastIndex, count)
    else
      var k := IndexOf(s, t, lastIndex);
      if k != -1 then RunSearch(s, t, k + |t|, count + 1, n - 1)
      else RunSearch(s, t, k, count, n - 1)
  }

  /** With a non-empty term the loop stops after CountFrom + 1 iterations, having counted CountFrom. */
  lemma {:induction false} SearchTerminates(s: string, t: string, from: nat, count: int)
    requires |t| > 0 && from <= |s|
    ensures RunSearch(s, t, from, count, CountFrom(s, t, from) + 1) == (-1, count + CountFrom(s, t, from))
    decreases |s| - from
  {
    var k := IndexOf(s, t, from);
    if k != -1 {
      SearchTerminates(s, t, k + |t|, count + 1);
    }
  }

  /**
   * With the empty term the loop never stops: indexOf finds "" at 0, the index
   * advances by 0, and after any number of iterations the guard still holds.
   */
  lemma {:induction false} EmptyTermNeverStops(s: string, count: int, n: nat)
    ensures RunSearch(s, "", 0, count, n) == (0, count + n)
    decreases n
  {
    if n != 0 {
      assert IndexOf(s, "", 0) == 0;
      EmptyTermNeverStops(s, count + 1, n - 1);
    }
  }
}
