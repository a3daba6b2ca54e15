/** Lists of completed week ids: the numeric ascending sort and the update that
    marking one week as completed performs. */
module WeekList {

  predicate Sorted(s: seq<int>) {
    forall i, j :: 0 <= i < j < |s| ==> s[i] <= s[j]
  }

  predicate Distinct(s: seq<int>) {
    forall i, j :: 0 <= i < j < |s| ==> s[i] != s[j]
  }

  /** What the store keeps: ascending, without repetitions. */
  predicate WellFormedProgress(s: seq<int>) {
    Sorted(s) && Distinct(s)
  }

  /** A list that starts below every element of `rest` stays sorted with it in front. */
  lemma BoundedByFirst(s: seq<int>, x: int, rest: seq<int>)
    requires Sorted(s) && |s| > 0 && s[0] < x
    requires Sorted(rest) && multiset(rest) == multiset(s[1..]) + multiset{x}
    ensures Sorted([s[0]] + rest)
  {
    forall k | 0 <= k < |rest| ensures s[0] <= rest[k] {
      assert rest[k] in multiset(rest);
      if rest[k] != x {
        assert rest[k] in s[1..];
      }
    }
  }

  /** Puts `x` into its place in an ascending list. */
  function Insert(x: int, s: seq<int>): (r: seq<int>)
    requires Sorted(s)
    ensures Sorted(r)
    ensures multiset(r) == multiset(s) + multiset{x}
  {
    if s == [] || x <= s[0] then [x] + s
    else
      var rest := Insert(x, s[1..]);
      assert s == [s[0]] + s[1..];
      assert multiset(s) == multiset{s[0]} + multiset(s[1..]);
      assert multiset([s[0]] + rest) == multiset{s[0]} + multiset(rest);
      BoundedByFirst(s, x, rest);
      [s[0]] + rest
  }

  /** The numeric ascending sort: a sorted permutation of its input. By SortedUnique every
      sorting algorithm yields this same list. */
  function SortAscending(s: seq<int>): (r: seq<int>)
    ensures Sorted(r)
    ensures multiset(r) == multiset(s)
  {
    if s == [] then []
    else
      assert s == s[..|s| - 1] + [s[|s| - 1]];
      Insert(s[|s| - 1], SortAscending(s[..|s| - 1]))
  }

  /** The head of a sorted list is its least element. */
  lemma HeadIsLeast(s: seq<int>, v: int)
    requires Sorted(s) && v in multiset(s)
    ensures |s| > 0 && s[0] <= v
  {
    assert v in s;
  }

  /** A sorted list is determined by its multiset of elements. */
  lemma {:induction false} SortedUnique(a: seq<int>, b: seq<int>)
    requires Sorted(a) && Sorted(b)
    requires multiset(a) == multiset(b)
    ensures a == b
  {
    assert |a| == |multiset(a)| == |multiset(b)| == |b|;
    if |a| > 0 {
      HeadIsLeast(b, a[0]);
      HeadIsLeast(a, b[0]);
      assert a == [a[0]] + a[1..];
      assert b == [b[0]] + b[1..];
      assert a[0] == b[0];
      assert multiset(a[1..]) == multiset(a) - multiset{a[0]};
      assert multiset(b[1..]) == multiset(b) - multiset{b[0]};
      SortedUnique(a[1..], b[1..]);
    }
  }

  /** A list without repetitions holds each value at most once. */
  lemma {:induction false} DistinctCount(s: seq<int>, x: int)
    requires Distinct(s)
    ensures multiset(s)[x] <= 1
  {
    if s != [] {
      assert s == [s[0]] + s[1..];
      assert Distinct(s[1..]);
      DistinctCount(s[1..], x);
      assert s[0] == x ==> x !in s[1..];
    }
  }

  /** Two positions with the same value make that value occur at least twice. */
  lemma RepeatCount(s: seq<int>, i: nat, j: nat)
    requires i < j < |s|
    ensures s[i] == s[j] ==> multiset(s)[s[i]] >= 2
  {
    assert s == s[..j] + s[j..];
    assert s[..j][i] == s[i];
    assert s[j..][0] == s[j];
  }

  /** Having no repetitions depends only on the multiset of elements. */
  lemma {:induction false} DistinctByMultiset(a: seq<int>, b: seq<int>)
    requires multiset(a) == multiset(b)
    requires Distinct(a)
    ensures Distinct(b)
  {
    forall i, j | 0 <= i < j < |b| ensures b[i] != b[j] {
      RepeatCount(b, i, j);
      DistinctCount(a, b[i]);
    }
  }

  /** The list `handleCompleteWeek` keeps after marking `weekId`: unchanged when the id is
      already there, otherwise the old ids plus `weekId`, sorted ascending. */
  function WithWeek(completed: seq<int>, weekId: int): (r: seq<int>)
    ensures weekId in completed ==> r == completed
    ensures weekId !in completed ==> Sorted(r) && multiset(r) == multiset(completed) + multiset{weekId}
    ensures forall x :: x in r <==> x in completed || x == weekId
    ensures Distinct(completed) ==> Distinct(r)
    ensures WellFormedProgress(completed) ==> WellFormedProgress(r)
  {
    if weekId in completed then completed
    else
      var r := SortAscending(completed + [weekId]);
      assert forall x :: x in r <==> x in multiset(completed + [weekId]);
      assert Distinct(completed) ==> Distinct(r) by {
        if Distinct(completed) {
          assert Distinct(completed + [weekId]);
          DistinctByMultiset(completed + [weekId], r);
        }
      }
      r
  }

  /** Marking the same week twice is marking it once. */
  lemma CompleteIdempotent(completed: seq<int>, weekId: int)
    ensures WithWeek(WithWeek(completed, weekId), weekId) == WithWeek(completed, weekId)
  {
  }

  /** The order in which two weeks are marked does not matter. */
  lemma {:induction false} CompleteCommutes(completed: seq<int>, w1: int, w2: int)
    ensures WithWeek(WithWeek(completed, w1), w2) == WithWeek(WithWeek(completed, w2), w1)
  {
    var one, two := WithWeek(completed, w1), WithWeek(completed, w2);
    if w1 == w2 {
    } else if w1 in completed {
      assert one == completed;
      assert w1 in two;
    } else if w2 in completed {
      assert two == completed;
      assert w2 in one;
    } else {
      assert multiset(one) == multiset(completed) + multiset{w1};
      assert multiset(two) == multiset(completed) + multiset{w2};
      assert w2 !in one && w1 !in two;
      var left, right := WithWeek(one, w2), WithWeek(two, w1);
      assert multiset(left) == multiset(completed) + multiset{w1} + multiset{w2};
      assert multiset(right) == multiset(completed) + multiset{w2} + multiset{w1};
      SortedUnique(left, right);
    }
  }
}
