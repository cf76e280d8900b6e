/**
 * Go's string ordering (byte-wise lexicographic, which for Unicode scalar
 * values coincides with code-point order) and the sorting the renderer relies
 * on to list object fields deterministically.
 */
module StringOrder {

  /** a <= b in Go's string order. */
  predicate Le(a: string, b: string)
    decreases |a|
  {
    |a| == 0 || (|b| > 0 && (a[0] < b[0] || (a[0] == b[0] && Le(a[1..], b[1..]))))
  }

  lemma {:induction false} LeReflexive(a: string)
    ensures Le(a, a)
    decreases |a|
  {
    if |a| > 0 { LeReflexive(a[1..]); }
  }

  lemma {:induction false} LeTotal(a: string, b: string)
    ensures Le(a, b) || Le(b, a)
    decreases |a|
  {
    if |a| > 0 && |b| > 0 && a[0] == b[0] { LeTotal(a[1..], b[1..]); }
  }

  lemma {:induction false} LeAntisymmetric(a: string, b: string)
    requires Le(a, b) && Le(b, a)
    ensures a == b
    decreases |a|
  {
    if |a| > 0 {
      LeAntisymmetric(a[1..], b[1..]);
      assert a == [a[0]] + a[1..] && b == [b[0]] + b[1..];
    }
  }

  lemma {:induction false} LeTransitive(a: string, b: string, c: string)
    requires Le(a, b) && Le(b, c)
    ensures Le(a, c)
    decreases |a|
  {
    if |a| > 0 && a[0] == b[0] && b[0] == c[0] { LeTransitive(a[1..], b[1..], c[1..]); }
  }

  /** s is in non-decreasing order. */
  predicate Sorted(s: seq<string>)
  {
    forall i, j :: 0 <= i < j < |s| ==> Le(s[i], s[j])
  }

  /** m is the least element of k. */
  predicate IsLeast(m: string, k: set<string>)
  {
    m in k && forall x :: x in k ==> Le(m, x)
  }

  lemma {:induction false} LeastExists(k: set<string>)
    requires k != {}
    ensures exists m :: IsLeast(m, k)
    decreases k
  {
    var x :| x in k;
    if k == {x} {
      LeReflexive(x);
      assert IsLeast(x, k);
    } else {
      LeastExists(k - {x});
      var m :| IsLeast(m, k - {x});
      LeTotal(m, x);
      if Le(m, x) {
        assert IsLeast(m, k);
      } else {
        forall y | y in k ensures Le(x, y) {
          if y == x { LeReflexive(x); } else { LeTransitive(x, m, y); }
        }
        assert IsLeast(x, k);
      }
    }
  }

  lemma LeastUnique(k: set<string>)
    ensures forall m1, m2 :: IsLeast(m1, k) && IsLeast(m2, k) ==> m1 == m2
  {
    forall m1, m2 | IsLeast(m1, k) && IsLeast(m2, k) ensures m1 == m2 {
      LeAntisymmetric(m1, m2);
    }
  }

  /**
   * The keys of a Go map listed in sort.Strings order: sorted, each key exactly
   * once, nothing else.
   */
  function SortedKeys(k: set<string>): (r: seq<string>)
    ensures Sorted(r)
    ensures multiset(r) == multiset(k)
    ensures forall x :: x in r <==> x in k
    decreases k
  {
    if k == {} then []
    else
      LeastExists(k);
      LeastUnique(k);
      var m :| IsLeast(m, k);
      var rest := SortedKeys(k - {m});
      SortedCons(m, rest, k);
      [m] + rest
  }

  lemma SortedCons(m: string, rest: seq<string>, k: set<string>)
    requires IsLeast(m, k)
    requires Sorted(rest) && multiset(rest) == multiset(k - {m})
    requires forall x :: x in rest <==> x in k - {m}
    ensures Sorted([m] + rest)
    ensures multiset([m] + rest) == multiset(k)
    ensures forall x :: x in [m] + rest <==> x in k
  {
    var r := [m] + rest;
    forall i, j | 0 <= i < j < |r| ensures Le(r[i], r[j]) {
      assert r[j] == rest[j - 1];
      if i > 0 { assert r[i] == rest[i - 1]; }
      else { assert rest[j - 1] in rest; }
    }
    SetPlusLeast(m, k);
    assert multiset(r) == multiset{m} + multiset(rest);
  }

  /** The multiset of a set, taken apart at one of its elements. */
  lemma SetPlusLeast(m: string, k: set<string>)
    requires m in k
    ensures multiset(k) == multiset{m} + multiset(k - {m})
  {
    assert k == (k - {m}) + {m};
  }

  /** The head of a sorted list is below each of its elements. */
  lemma SortedHeadLeast(s: seq<string>, x: string)
    requires Sorted(s) && x in s
    ensures Le(s[0], x)
  {
    var i :| 0 <= i < |s| && s[i] == x;
    if i == 0 { LeReflexive(x); }
  }

  /** Removing equal heads from two permutations leaves permutations. */
  lemma TailPermutation(a: seq<string>, b: seq<string>)
    requires |a| > 0 && |b| > 0 && a[0] == b[0] && multiset(a) == multiset(b)
    ensures multiset(a[1..]) == multiset(b[1..])
  {
    HeadTail(a);
    HeadTail(b);
  }

  /** The multiset of a non-empty list is its head plus its tail. */
  lemma HeadTail(a: seq<string>)
    requires |a| > 0
    ensures multiset(a[1..]) == multiset(a) - multiset{a[0]}
  {
    assert a == [a[0]] + a[1..];
    assert multiset(a) == multiset{a[0]} + multiset(a[1..]);
  }

  /** A sorted list is determined by its elements: two sorted permutations are equal. */
  lemma {:induction false} SortedUnique(a: seq<string>, b: seq<string>)
    requires Sorted(a) && Sorted(b) && multiset(a) == multiset(b)
    ensures a == b
    decreases |a|
  {
    assert |a| == |multiset(a)| == |multiset(b)| == |b|;
    if |a| > 0 {
      assert a[0] in multiset(b) && b[0] in multiset(a);
      SortedHeadLeast(b, a[0]);
      SortedHeadLeast(a, b[0]);
      LeAntisymmetric(a[0], b[0]);
      TailPermutation(a, b);
      assert Sorted(a[1..]) && Sorted(b[1..]);
      SortedUnique(a[1..], b[1..]);
      assert a == [a[0]] + a[1..] && b == [b[0]] + b[1..];
    }
  }

  /** The keys of a two-key map are listed smaller first. */
  lemma PairOrder(a: string, b: string)
    requires Le(a, b) && a != b
    ensures SortedKeys({a, b}) == [a, b]
  {
    assert Sorted([a, b]);
    assert multiset([a, b]) == multiset{a, b};
    SortedUnique(SortedKeys({a, b}), [a, b]);
  }

  /** sort.Strings: sorts a in place (modelled as an insertion sort). */
  method SortStrings(a: array<string>)
    modifies a
    ensures Sorted(a[..])
    ensures multiset(a[..]) == old(multiset(a[..]))
  {
    var i := 0;
    while i < a.Length
      invariant 0 <= i <= a.Length
      invariant forall k, l :: 0 <= k < l < i ==> Le(a[k], a[l])
      invariant multiset(a[..]) == old(multiset(a[..]))
    {
      InsertLast(a, i);
      i := i + 1;
    }
  }

  /** One insertion step: moves a[i] down into the sorted prefix a[..i]. */
  method InsertLast(a: array<string>, i: int)
    requires 0 <= i < a.Length
    requires forall k, l :: 0 <= k < l < i ==> Le(a[k], a[l])
    modifies a
    ensures forall k, l :: 0 <= k < l <= i ==> Le(a[k], a[l])
    ensures multiset(a[..]) == old(multiset(a[..]))
  {
    var j := i;
    while j > 0 && !Le(a[j - 1], a[j])
      invariant 0 <= j <= i
      invariant forall k, l :: 0 <= k < l <= i && k != j && l != j ==> Le(a[k], a[l])
      invariant forall l :: j < l <= i ==> Le(a[j], a[l])
      invariant multiset(a[..]) == old(multiset(a[..]))
    {
      LeTotal(a[j - 1], a[j]);
      a[j - 1], a[j] := a[j], a[j - 1];
      j := j - 1;
    }
    forall k | 0 <= k < j - 1
      ensures Le(a[k], a[j])
    {
      LeTransitive(a[k], a[j - 1], a[j]);
    }
  }
}
