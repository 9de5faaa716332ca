/** `sortByStarredDate`: a stable sort of a copy of the list by star time,
    where a repository without a star time counts as starred at 0. */
module StarOrder {
  import opened Wrappers
  import opened GithubService

  datatype Order = Ascending | Descending

  function StarTime(r: StarredRepository): int {
    if r.starredAt.Some? then r.starredAt.value else 0
  }

  /** `a` must come strictly before `b`: the comparator is negative. */
  predicate Precedes(a: StarredRepository, b: StarredRepository, order: Order) {
    if order == Descending then StarTime(a) > StarTime(b) else StarTime(a) < StarTime(b)
  }

  ghost predicate IsSortedBy(s: seq<StarredRepository>, order: Order) {
    forall i, j :: 0 <= i < j < |s| ==> !Precedes(s[j], s[i], order)
  }

  /** The repositories of `s` with star time `t`, in their order in `s`. */
  function WithStarTime(s: seq<StarredRepository>, t: int): seq<StarredRepository> {
    if s == [] then []
    else WithStarTime(s[..|s| - 1], t) + (if StarTime(s[|s| - 1]) == t then [s[|s| - 1]] else [])
  }

  /** Places `x` behind every element it does not strictly precede. */
  function Insert(s: seq<StarredRepository>, x: StarredRepository, order: Order): seq<StarredRepository> {
    if s == [] then [x]
    else if Precedes(x, s[|s| - 1], order) then Insert(s[..|s| - 1], x, order) + [s[|s| - 1]]
    else s + [x]
  }

  /** The stable sort that a consistent comparator gives: insertion from left to right. */
  function SortedByStarTime(s: seq<StarredRepository>, order: Order): seq<StarredRepository> {
    if s == [] then [] else Insert(SortedByStarTime(s[..|s| - 1], order), s[|s| - 1], order)
  }

  lemma {:induction false} InsertPermutes(s: seq<StarredRepository>, x: StarredRepository, order: Order)
    ensures multiset(Insert(s, x, order)) == multiset(s) + multiset{x}
    decreases |s|
  {
    if s != [] {
      var init, last := s[..|s| - 1], s[|s| - 1];
      assert s == init + [last];
      if Precedes(x, last, order) {
        InsertPermutes(init, x, order);
      }
    }
  }

  lemma {:induction false} InsertSorted(s: seq<StarredRepository>, x: StarredRepository, order: Order)
    requires IsSortedBy(s, order)
    ensures IsSortedBy(Insert(s, x, order), order)
    decreases |s|
  {
    if s != [] {
      var init, last := s[..|s| - 1], s[|s| - 1];
      assert s == init + [last];
      if Precedes(x, last, order) {
        InsertSorted(init, x, order);
        InsertPermutes(init, x, order);
        var u := Insert(init, x, order);
        var r := u + [last];
        forall i, j | 0 <= i < j < |r| ensures !Precedes(r[j], r[i], order) {
          if j == |r| - 1 {
            assert r[i] in multiset(u);
            assert r[i] == x || r[i] in multiset(init);
            if r[i] != x {
              var k :| 0 <= k < |init| && init[k] == r[i];
              assert s[k] == r[i] && s[|s| - 1] == last;
            }
          } else {
            assert r[i] == u[i] && r[j] == u[j];
          }
        }
      }
    }
  }

  lemma {:induction false} InsertStable(s: seq<StarredRepository>, x: StarredRepository, order: Order, t: int)
    ensures WithStarTime(Insert(s, x, order), t) == WithStarTime(s, t) + (if StarTime(x) == t then [x] else [])
    decreases |s|
  {
    if s != [] {
      var init, last := s[..|s| - 1], s[|s| - 1];
      assert s == init + [last];
      if Precedes(x, last, order) {
        InsertStable(init, x, order, t);
        var r := Insert(init, x, order) + [last];
        assert r[..|r| - 1] == Insert(init, x, order);
      } else {
        var r := s + [x];
        assert r[..|r| - 1] == s;
      }
    }
  }

  /** The sort is ordered, a permutation of its input, and stable: the
      repositories sharing a star time keep their relative order. */
  lemma {:induction false} SortedByStarTimeFacts(s: seq<StarredRepository>, order: Order)
    ensures IsSortedBy(SortedByStarTime(s, order), order)
    ensures multiset(SortedByStarTime(s, order)) == multiset(s)
    ensures |SortedByStarTime(s, order)| == |s|
    ensures forall t :: WithStarTime(SortedByStarTime(s, order), t) == WithStarTime(s, t)
    decreases |s|
  {
    if s != [] {
      var init := s[..|s| - 1];
      assert s == init + [s[|s| - 1]];
      SortedByStarTimeFacts(init, order);
      InsertSorted(SortedByStarTime(init, order), s[|s| - 1], order);
      InsertPermutes(SortedByStarTime(init, order), s[|s| - 1], order);
      forall t ensures WithStarTime(SortedByStarTime(s, order), t) == WithStarTime(s, t) {
        InsertStable(SortedByStarTime(init, order), s[|s| - 1], order, t);
      }
    }
  }

  /** Unfolds `Insert` over one more element that `x` strictly precedes. */
  lemma InsertUnfold(done: seq<StarredRepository>, j: nat, x: StarredRepository, order: Order)
    requires 0 < j <= |done| && Precedes(x, done[j - 1], order)
    ensures Insert(done[..j], x, order) + done[j..] == Insert(done[..j - 1], x, order) + done[j - 1..]
  {
    assert done[..j][..j - 1] == done[..j - 1];
    assert done[j - 1..] == [done[j - 1]] + done[j..];
  }

  /** `Insert` stops in front of the first element `x` does not strictly precede. */
  lemma InsertStop(done: seq<StarredRepository>, j: nat, x: StarredRepository, order: Order)
    requires j <= |done| && (j == 0 || !Precedes(x, done[j - 1], order))
    ensures Insert(done[..j], x, order) == done[..j] + [x]
  {
    if j > 0 {
      assert done[..j][j - 1] == done[j - 1];
    }
  }

  /** Where `Insert` puts `x` into `done`: behind every element it does not
      strictly precede. */
  method InsertPosition(done: seq<StarredRepository>, x: StarredRepository, order: Order) returns (j: nat)
    ensures j <= |done|
    ensures Insert(done, x, order) == done[..j] + [x] + done[j..]
  {
    j := |done|;
    assert done[..j] == done && done[j..] == [];
    while j > 0 && Precedes(x, done[j - 1], order)
      invariant 0 <= j <= |done|
      invariant Insert(done, x, order) == Insert(done[..j], x, order) + done[j..]
    {
      InsertUnfold(done, j, x, order);
      j := j - 1;
    }
    InsertStop(done, j, x, order);
  }

  /** One step of the insertion sort: moves `a[i]` left past the elements of
      the sorted prefix that it strictly precedes. */
  method InsertLast(a: array<StarredRepository>, i: nat, order: Order)
    requires i < a.Length
    modifies a
    ensures a[..i + 1] == Insert(old(a[..i]), old(a[i]), order)
    ensures forall k :: i < k < a.Length ==> a[k] == old(a[k])
  {
    ghost var done := a[..i];
    var x := a[i];
    var j := InsertPosition(a[..i], x, order);
    var k := i;
    while k > j
      invariant j <= k <= i
      invariant forall m :: 0 <= m <= k ==> a[m] == old(a[m])
      invariant forall m :: k < m <= i ==> a[m] == done[m - 1]
      invariant forall m :: i < m < a.Length ==> a[m] == old(a[m])
    {
      a[k] := a[k - 1];
      k := k - 1;
    }
    a[j] := x;
    assert a[..i + 1] == done[..j] + [x] + done[j..];
  }

  /** `[...repos].sort(...)`: an insertion sort on a fresh array, so the
      caller's list is left as it was. */
  method SortByStarredDate(repos: seq<StarredRepository>, order: Order) returns (sorted: seq<StarredRepository>)
    ensures sorted == SortedByStarTime(repos, order)
  {
    var a := new StarredRepository[|repos|](i requires 0 <= i < |repos| => repos[i]);
    var i := 0;
    while i < a.Length
      invariant 0 <= i <= a.Length
      invariant a[..i] == SortedByStarTime(repos[..i], order)
      invariant forall k :: i <= k < a.Length ==> a[k] == repos[k]
    {
      assert a[i] == repos[i];
      InsertLast(a, i, order);
      assert repos[..i + 1][..i] == repos[..i];
      i := i + 1;
    }
    assert repos[..a.Length] == repos;
    sorted := a[..];
  }
}
