/** Insertion sort by a caller-supplied total preorder, used for the two
    ordered queries of the model (leaderboard by XP, question listing by
    question text). The result is a sorted permutation of the input. */
module Sorting {

  ghost predicate TotalPreorder<T(!new)>(le: (T, T) -> bool)
  {
    && (forall a, b :: le(a, b) || le(b, a))
    && (forall a, b, c :: le(a, b) && le(b, c) ==> le(a, c))
  }

  ghost predicate SortedBy<T>(le: (T, T) -> bool, s: seq<T>)
  {
    forall i, j :: 0 <= i < j < |s| ==> le(s[i], s[j])
  }

  /** An element below every element of a sorted sequence may go in front. */
  lemma ConsSorted<T>(le: (T, T) -> bool, y: T, s: seq<T>)
    requires SortedBy(le, s)
    requires forall j :: 0 <= j < |s| ==> le(y, s[j])
    ensures SortedBy(le, [y] + s)
  {
    var r := [y] + s;
    forall i, j | 0 <= i < j < |r| ensures le(r[i], r[j]) {
      assert r[j] == s[j - 1];
      if i > 0 { assert r[i] == s[i - 1]; }
    }
  }

  /** Whatever does not exceed the head of a sorted sequence does not exceed
      any of it. */
  lemma BelowHead<T(!new)>(le: (T, T) -> bool, x: T, s: seq<T>)
    requires TotalPreorder(le) && SortedBy(le, s)
    requires |s| > 0 && le(x, s[0])
    ensures forall j :: 0 <= j < |s| ==> le(x, s[j])
  {
  }

  /** The head of a sorted sequence does not exceed anything inserted into
      its tail, given that it does not exceed the inserted element. */
  lemma HeadBelowInserted<T(!new)>(le: (T, T) -> bool, x: T, s: seq<T>, rest: seq<T>)
    requires SortedBy(le, s) && |s| > 0 && le(s[0], x)
    requires multiset(rest) == multiset(s[1..]) + multiset{x}
    ensures forall j :: 0 <= j < |rest| ==> le(s[0], rest[j])
  {
    forall j | 0 <= j < |rest| ensures le(s[0], rest[j]) {
      assert rest[j] in multiset(rest);
      if rest[j] != x {
        assert rest[j] in multiset(s[1..]);
        var k :| 0 <= k < |s[1..]| && s[1..][k] == rest[j];
        assert s[k + 1] == rest[j];
      }
    }
  }

  /** Places `x` before the first element it does not exceed. */
  function Insert<T(!new)>(le: (T, T) -> bool, x: T, s: seq<T>): (r: seq<T>)
    requires TotalPreorder(le)
    requires SortedBy(le, s)
    ensures multiset(r) == multiset(s) + multiset{x}
    ensures SortedBy(le, r)
    decreases |s|
  {
    if |s| == 0 then [x]
    else if le(x, s[0]) then
      BelowHead(le, x, s);
      ConsSorted(le, x, s);
      [x] + s
    else
      var rest := Insert(le, x, s[1..]);
      assert s == [s[0]] + s[1..];
      HeadBelowInserted(le, x, s, rest);
      ConsSorted(le, s[0], rest);
      [s[0]] + rest
  }

  /** The sort of `s`: its elements in `le` order. */
  function Sort<T(!new)>(le: (T, T) -> bool, s: seq<T>): (r: seq<T>)
    requires TotalPreorder(le)
    ensures multiset(r) == multiset(s)
    ensures |r| == |s|
    ensures SortedBy(le, r)
    decreases |s|
  {
    if |s| == 0 then []
    else
      assert s == [s[0]] + s[1..];
      Insert(le, s[0], Sort(le, s[1..]))
  }
}
