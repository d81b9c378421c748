/**
 * Stable insertion sort by a "comes strictly before" relation: the ORDER BY of the
 * store's queries and the `sort_keys` of the JSON serialisation behind the content hash.
 */
module Sorting {

  /** A WHERE clause: the elements satisfying `p`, in their original order. */
  function Filter<T(!new)>(s: seq<T>, p: T -> bool): (r: seq<T>)
    ensures |r| <= |s|
    ensures forall x :: x in r <==> x in s && p(x)
    ensures forall x :: multiset(r)[x] == if p(x) then multiset(s)[x] else 0
  {
    if s == [] then []
    else
      assert s == [s[0]] + s[1..];
      (if p(s[0]) then [s[0]] else []) + Filter(s[1..], p)
  }

  /** Asymmetric, and "not before" is transitive. */
  ghost predicate StrictWeakOrder<T(!new)>(before: (T, T) -> bool) {
    && (forall a, b :: before(a, b) ==> !before(b, a))
    && (forall a, b, c :: before(a, c) ==> before(a, b) || before(b, c))
  }

  ghost predicate SortedBy<T>(s: seq<T>, before: (T, T) -> bool) {
    forall i, j :: 0 <= i < j < |s| ==> !before(s[j], s[i])
  }

  /** Any two different elements of `s` are ordered one way or the other. */
  ghost predicate TotalOn<T>(s: seq<T>, before: (T, T) -> bool) {
    forall i, j :: 0 <= i < |s| && 0 <= j < |s| && s[i] != s[j] ==> before(s[i], s[j]) || before(s[j], s[i])
  }

  /** Inserts `x` ahead of the first element that does not come strictly before it. */
  function InsertBy<T>(x: T, s: seq<T>, before: (T, T) -> bool): (r: seq<T>)
    ensures |r| == |s| + 1
    ensures multiset(r) == multiset(s) + multiset{x}
    ensures forall k :: 0 <= k < |r| ==> r[k] == x || r[k] in s
  {
    if s == [] || !before(s[0], x) then [x] + s
    else
      assert s == [s[0]] + s[1..];
      [s[0]] + InsertBy(x, s[1..], before)
  }

  function SortBy<T>(s: seq<T>, before: (T, T) -> bool): (r: seq<T>)
    ensures |r| == |s|
    ensures multiset(r) == multiset(s)
  {
    if s == [] then []
    else
      assert s == [s[0]] + s[1..];
      InsertBy(s[0], SortBy(s[1..], before), before)
  }

  lemma {:induction false} InsertBySorted<T(!new)>(x: T, s: seq<T>, before: (T, T) -> bool)
    requires StrictWeakOrder(before) && SortedBy(s, before)
    ensures SortedBy(InsertBy(x, s, before), before)
  {
    if s == [] || !before(s[0], x) {
    } else {
      var rest := InsertBy(x, s[1..], before);
      assert SortedBy(s[1..], before);
      InsertBySorted(x, s[1..], before);
      forall k | 0 <= k < |rest| ensures !before(rest[k], s[0]) {
        if rest[k] != x {
          var j :| 0 <= j < |s[1..]| && s[1..][j] == rest[k];
          assert s[j + 1] == rest[k];
        }
      }
    }
  }

  /** The sort orders its output. */
  lemma {:induction false} SortBySorted<T(!new)>(s: seq<T>, before: (T, T) -> bool)
    requires StrictWeakOrder(before)
    ensures SortedBy(SortBy(s, before), before)
  {
    if s != [] {
      SortBySorted(s[1..], before);
      InsertBySorted(s[0], SortBy(s[1..], before), before);
    }
  }

  /** Two sorted arrangements of the same elements, totally ordered, start alike. */
  lemma SameHead<T(!new)>(a: seq<T>, b: seq<T>, before: (T, T) -> bool)
    requires SortedBy(a, before) && SortedBy(b, before) && TotalOn(a, before)
    requires multiset(a) == multiset(b) && a != []
    ensures b != [] && a[0] == b[0]
  {
    assert |a| == |multiset(a)| == |b|;
    assert a[0] in multiset(b);
    var k :| 0 <= k < |b| && b[k] == a[0];
    assert b[0] in multiset(a);
    var m :| 0 <= m < |a| && a[m] == b[0];
    assert m == 0 || !before(a[m], a[0]);
    assert k == 0 || !before(b[k], b[0]);
  }

  /** Removing the same first element from equal multisets leaves equal multisets. */
  lemma TailMultiset<T>(a: seq<T>, b: seq<T>)
    requires a != [] && b != [] && a[0] == b[0] && multiset(a) == multiset(b)
    ensures multiset(a[1..]) == multiset(b[1..])
  {
    assert a == [a[0]] + a[1..] && b == [b[0]] + b[1..];
    assert multiset(a) == multiset{a[0]} + multiset(a[1..]);
    assert multiset(b) == multiset{a[0]} + multiset(b[1..]);
    forall z ensures multiset(a[1..])[z] == multiset(b[1..])[z] {
      assert multiset(a)[z] == multiset{a[0]}[z] + multiset(a[1..])[z];
      assert multiset(b)[z] == multiset{a[0]}[z] + multiset(b[1..])[z];
    }
  }

  /** The tail of a sorted, totally ordered sequence is sorted and totally ordered. */
  lemma TailSorted<T>(a: seq<T>, before: (T, T) -> bool)
    requires a != [] && SortedBy(a, before) && TotalOn(a, before)
    ensures SortedBy(a[1..], before) && TotalOn(a[1..], before)
  {
    forall i, j | 0 <= i < j < |a[1..]| ensures !before(a[1..][j], a[1..][i]) {
      assert a[1..][i] == a[i + 1] && a[1..][j] == a[j + 1];
    }
    forall i, j | 0 <= i < |a[1..]| && 0 <= j < |a[1..]| && a[1..][i] != a[1..][j]
      ensures before(a[1..][i], a[1..][j]) || before(a[1..][j], a[1..][i])
    {
      assert a[1..][i] == a[i + 1] && a[1..][j] == a[j + 1];
    }
  }

  /** Under an order that separates all different elements, sorted content is unique. */
  lemma {:induction false} SortedUnique<T(!new)>(a: seq<T>, b: seq<T>, before: (T, T) -> bool)
    requires StrictWeakOrder(before)
    requires SortedBy(a, before) && SortedBy(b, before) && TotalOn(a, before)
    requires multiset(a) == multiset(b)
    ensures a == b
  {
    assert |a| == |multiset(a)| == |b|;
    if a != [] {
      SameHead(a, b, before);
      TailMultiset(a, b);
      TailSorted(a, before);
      assert SortedBy(b[1..], before) by {
        forall i, j | 0 <= i < j < |b[1..]| ensures !before(b[1..][j], b[1..][i]) {
          assert b[1..][i] == b[i + 1] && b[1..][j] == b[j + 1];
        }
      }
      SortedUnique(a[1..], b[1..], before);
      assert a == [a[0]] + a[1..] && b == [b[0]] + b[1..];
    }
  }

  /**
   * The first `n` elements of a sorted permutation of `s` are the `n` best of `s`:
   * nothing left out comes strictly before anything taken.
   */
  lemma {:induction false} TakeIsBest<T(!new)>(s: seq<T>, n: nat, before: (T, T) -> bool)
    requires StrictWeakOrder(before)
    ensures var r := SortBy(s, before)[..if n < |s| then n else |s|];
      forall y, x :: y in multiset(s) - multiset(r) && x in r ==> !before(y, x)
  {
    var sorted := SortBy(s, before);
    SortBySorted(s, before);
    var n' := if n < |s| then n else |s|;
    var r := sorted[..n'];
    assert sorted == r + sorted[n'..];
    assert multiset(s) - multiset(r) == multiset(sorted[n'..]);
    SortedSplit(sorted, n', before);
  }

  /** In a sorted sequence nothing after a cut comes strictly before anything ahead of it. */
  lemma SortedSplit<T>(s: seq<T>, n: nat, before: (T, T) -> bool)
    requires n <= |s| && SortedBy(s, before)
    ensures forall y, x :: y in multiset(s[n..]) && x in s[..n] ==> !before(y, x)
  {
    forall y, x | y in multiset(s[n..]) && x in s[..n] ensures !before(y, x) {
      var j :| 0 <= j < |s[n..]| && s[n..][j] == y;
      var i :| 0 <= i < n && s[..n][i] == x;
      assert s[n + j] == y && s[i] == x;
    }
  }

  /** A prefix holds no element more often than the whole. */
  lemma PrefixMultiset<T>(s: seq<T>, n: nat)
    requires n <= |s|
    ensures multiset(s[..n]) <= multiset(s)
  {
    assert s == s[..n] + s[n..];
  }

  /** `a` is `b` with some elements left out, the rest in the same order. */
  predicate Subsequence<T(==)>(a: seq<T>, b: seq<T>)
    decreases |b|
  {
    if a == [] then true
    else if b == [] then false
    else if a[|a| - 1] == b[|b| - 1] then Subsequence(a[..|a| - 1], b[..|b| - 1])
    else Subsequence(a, b[..|b| - 1])
  }

  lemma {:induction false} SubsequenceSnoc<T>(a: seq<T>, b: seq<T>, x: T)
    requires Subsequence(a, b)
    ensures Subsequence(a, b + [x])
    decreases |b|, 1
  {
    var b' := b + [x];
    assert b'[..|b'| - 1] == b;
    if a != [] && a[|a| - 1] == x {
      SubsequenceDropLast(a, b);
    }
  }

  /** Appending an element to the whole sequence, and maybe to the subsequence, keeps a subsequence. */
  lemma SubsequenceSnocIf<T>(a: seq<T>, b: seq<T>, x: T, keep: bool)
    requires Subsequence(a, b)
    ensures Subsequence(a + (if keep then [x] else []), b + [x])
  {
    if keep {
      assert (a + [x])[..|a|] == a && (b + [x])[..|b|] == b;
    } else {
      assert a + [] == a;
      SubsequenceSnoc(a, b, x);
    }
  }

  lemma {:induction false} SubsequenceDropLast<T>(a: seq<T>, b: seq<T>)
    requires a != [] && Subsequence(a, b)
    ensures Subsequence(a[..|a| - 1], b)
    decreases |b|, 0
  {
    if b != [] {
      var init := b[..|b| - 1];
      assert init + [b[|b| - 1]] == b;
      if a[|a| - 1] == b[|b| - 1] {
        SubsequenceSnoc(a[..|a| - 1], init, b[|b| - 1]);
      } else {
        SubsequenceDropLast(a, init);
        SubsequenceSnoc(a[..|a| - 1], init, b[|b| - 1]);
      }
    }
  }
}
