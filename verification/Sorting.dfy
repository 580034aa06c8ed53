/** The stable library sort the sources call, as insertion into a sorted tail. */
module Sorting {

  ghost predicate TotalPreorder<T(!new)>(leq: (T, T) -> bool) {
    && (forall a, b :: leq(a, b) || leq(b, a))
    && (forall a, b, c :: leq(a, b) && leq(b, c) ==> leq(a, c))
  }

  ghost predicate Sorted<T>(s: seq<T>, leq: (T, T) -> bool) {
    forall i, j :: 0 <= i < j < |s| ==> leq(s[i], s[j])
  }

  /** Equal keys only on equal elements. */
  ghost predicate KeysDistinguish<T>(s: seq<T>, leq: (T, T) -> bool) {
    forall i, j :: 0 <= i < |s| && 0 <= j < |s| && leq(s[i], s[j]) && leq(s[j], s[i]) ==> s[i] == s[j]
  }

  /** `x` goes before the first element that is not below it, so equal elements keep their order. */
  function Insert<T>(x: T, s: seq<T>, leq: (T, T) -> bool): seq<T> {
    if s == [] then [x]
    else if leq(x, s[0]) then [x] + s
    else [s[0]] + Insert(x, s[1..], leq)
  }

  function Sort<T>(s: seq<T>, leq: (T, T) -> bool): seq<T> {
    if s == [] then [] else Insert(s[0], Sort(s[1..], leq), leq)
  }

  lemma {:induction false} InsertPermutes<T>(x: T, s: seq<T>, leq: (T, T) -> bool)
    ensures multiset(Insert(x, s, leq)) == multiset([x]) + multiset(s)
  {
    if s != [] {
      assert s == [s[0]] + s[1..];
      if !leq(x, s[0]) { InsertPermutes(x, s[1..], leq); }
    }
  }

  lemma {:induction false} SortPermutes<T>(s: seq<T>, leq: (T, T) -> bool)
    ensures multiset(Sort(s, leq)) == multiset(s)
  {
    if s != [] {
      SortPermutes(s[1..], leq);
      InsertPermutes(s[0], Sort(s[1..], leq), leq);
      assert s == [s[0]] + s[1..];
    }
  }

  lemma SameLength<T>(s: seq<T>, t: seq<T>)
    requires multiset(s) == multiset(t)
    ensures |s| == |t|
  {
    assert |multiset(s)| == |s| && |multiset(t)| == |t|;
  }

  lemma SameMembers<T>(s: seq<T>, t: seq<T>)
    requires multiset(s) == multiset(t)
    ensures forall x :: x in s <==> x in t
  {
    forall x ensures x in s <==> x in t {
      assert x in s <==> x in multiset(s);
      assert x in t <==> x in multiset(t);
    }
  }

  lemma {:induction false} InsertSorts<T(!new)>(x: T, s: seq<T>, leq: (T, T) -> bool)
    requires TotalPreorder(leq) && Sorted(s, leq)
    ensures Sorted(Insert(x, s, leq), leq)
  {
    if s != [] && !leq(x, s[0]) {
      var tail := Insert(x, s[1..], leq);
      InsertSorts(x, s[1..], leq);
      InsertPermutes(x, s[1..], leq);
      SameMembers(tail, [x] + s[1..]);
      forall i | 0 <= i < |tail| ensures leq(s[0], tail[i]) {
        assert tail[i] in [x] + s[1..];
      }
    }
  }

  lemma {:induction false} SortSorts<T(!new)>(s: seq<T>, leq: (T, T) -> bool)
    requires TotalPreorder(leq)
    ensures Sorted(Sort(s, leq), leq)
  {
    if s != [] {
      SortSorts(s[1..], leq);
      InsertSorts(s[0], Sort(s[1..], leq), leq);
    }
  }

  /** A sorted sequence is left alone. */
  lemma {:induction false} SortKeepsSorted<T>(s: seq<T>, leq: (T, T) -> bool)
    requires Sorted(s, leq)
    ensures Sort(s, leq) == s
  {
    if s != [] {
      SortKeepsSorted(s[1..], leq);
      if |s| > 1 { assert leq(s[0], s[1]); }
    }
  }

  lemma {:induction false} InsertBefore<T>(x: T, s: seq<T>, last: T, leq: (T, T) -> bool)
    requires leq(x, last)
    ensures Insert(x, s + [last], leq) == Insert(x, s, leq) + [last]
  {
    if s == [] {
      assert s + [last] == [last];
    } else {
      InsertBefore(x, s[1..], last, leq);
      assert (s + [last])[1..] == s[1..] + [last];
      assert [s[0]] + (Insert(x, s[1..], leq) + [last]) == ([s[0]] + Insert(x, s[1..], leq)) + [last];
    }
  }

  /** A last element that nothing exceeds stays last. */
  lemma {:induction false} SortKeepsGreatestLast<T>(s: seq<T>, last: T, leq: (T, T) -> bool)
    requires forall i :: 0 <= i < |s| ==> leq(s[i], last)
    ensures Sort(s + [last], leq) == Sort(s, leq) + [last]
  {
    if s == [] {
      assert s + [last] == [last] && [last][1..] == [];
    } else {
      SortKeepsGreatestLast(s[1..], last, leq);
      assert (s + [last])[1..] == s[1..] + [last];
      InsertBefore(s[0], Sort(s[1..], leq), last, leq);
    }
  }

  /** Inserting passes over nothing that is equivalent to the new element. */
  lemma {:induction false} InsertKeepsPlace<T>(x: T, s: seq<T>, leq: (T, T) -> bool, p: T -> bool)
    requires p(x) ==> forall y :: y in s && p(y) ==> leq(x, y)
    ensures Filter(Insert(x, s, leq), p) == Filter([x] + s, p)
  {
    hide Filter;
    if s != [] && !leq(x, s[0]) {
      var y, rest := s[0], s[1..];
      assert s == [y] + rest && y in s && Insert(x, s, leq) == [y] + Insert(x, rest, leq);
      assert !(p(x) && p(y));
      hide Insert;
      InsertKeepsPlace(x, rest, leq, p);
      FilterSplits([y], Insert(x, rest, leq), p);
      FilterSplits([x], rest, p);
      FilterSplits([x], s, p);
      FilterSplits([y], rest, p);
      FilterOne(x, p);
      FilterOne(y, p);
    } else {
      assert Insert(x, s, leq) == [x] + s;
    }
  }

  /** Sorting is stable: elements that are all equivalent to each other keep their order. */
  lemma {:induction false} SortIsStable<T>(s: seq<T>, leq: (T, T) -> bool, p: T -> bool)
    requires forall x, y :: x in s && y in s && p(x) && p(y) ==> leq(x, y)
    ensures Filter(Sort(s, leq), p) == Filter(s, p)
  {
    if s != [] {
      var rest := s[1..];
      assert s == [s[0]] + rest;
      SortIsStable(rest, leq, p);
      SortPermutes(rest, leq);
      forall y | y in Sort(rest, leq) ensures y in s { assert y in multiset(Sort(rest, leq)); }
      InsertKeepsPlace(s[0], Sort(rest, leq), leq, p);
      FilterSplits([s[0]], Sort(rest, leq), p);
      FilterSplits([s[0]], rest, p);
    }
  }

  lemma HeadsAgree<T>(s: seq<T>, t: seq<T>, leq: (T, T) -> bool)
    requires Sorted(s, leq) && Sorted(t, leq) && multiset(s) == multiset(t) && KeysDistinguish(s, leq) && s != []
    ensures t != [] && s[0] == t[0]
  {
    SameLength(s, t);
    SameMembers(s, t);
    assert s[0] in t && t[0] in s;
    var i :| 0 <= i < |s| && s[i] == t[0];
    var j :| 0 <= j < |t| && t[j] == s[0];
  }

  lemma TailMultiset<T>(s: seq<T>)
    requires s != []
    ensures multiset(s[1..]) == multiset(s) - multiset{s[0]}
  {
    assert s == [s[0]] + s[1..];
  }

  /** There is only one way to sort elements whose keys tell them apart. */
  lemma {:induction false} SortedUnique<T>(s: seq<T>, t: seq<T>, leq: (T, T) -> bool)
    requires Sorted(s, leq) && Sorted(t, leq) && multiset(s) == multiset(t) && KeysDistinguish(s, leq)
    ensures s == t
  {
    if s == [] {
      SameLength(s, t);
    } else {
      HeadsAgree(s, t, leq);
      TailMultiset(s);
      TailMultiset(t);
      SortedUnique(s[1..], t[1..], leq);
      assert s == [s[0]] + s[1..] && t == [t[0]] + t[1..];
    }
  }

  lemma KeysDistinguishPermuted<T>(s: seq<T>, t: seq<T>, leq: (T, T) -> bool)
    requires multiset(s) == multiset(t) && KeysDistinguish(s, leq)
    ensures KeysDistinguish(t, leq)
  {
    SameMembers(s, t);
    forall i, j | 0 <= i < |t| && 0 <= j < |t| && leq(t[i], t[j]) && leq(t[j], t[i]) ensures t[i] == t[j] {
      assert t[i] in s && t[j] in s;
      var k :| 0 <= k < |s| && s[k] == t[i];
      var m :| 0 <= m < |s| && s[m] == t[j];
    }
  }

  /** Sorting forgets the order when keys tell the elements apart. */
  lemma SortForgetsOrder<T(!new)>(s: seq<T>, t: seq<T>, leq: (T, T) -> bool)
    requires TotalPreorder(leq) && multiset(s) == multiset(t) && KeysDistinguish(s, leq)
    ensures Sort(s, leq) == Sort(t, leq)
  {
    SortPermutes(s, leq);
    SortPermutes(t, leq);
    SortSorts(s, leq);
    SortSorts(t, leq);
    KeysDistinguishPermuted(s, Sort(s, leq), leq);
    SortedUnique(Sort(s, leq), Sort(t, leq), leq);
  }

  function Map<T, U>(s: seq<T>, f: T -> U): seq<U> {
    seq(|s|, i requires 0 <= i < |s| => f(s[i]))
  }

  /** The elements that pass a test, in order. */
  function Filter<T>(s: seq<T>, p: T -> bool): seq<T> {
    if s == [] then [] else (if p(s[0]) then [s[0]] else []) + Filter(s[1..], p)
  }

  predicate All<T>(s: seq<T>, p: T -> bool) { forall i :: 0 <= i < |s| ==> p(s[i]) }

  lemma AllPermutes<T>(s: seq<T>, t: seq<T>, p: T -> bool)
    requires multiset(s) == multiset(t)
    ensures All(s, p) <==> All(t, p)
  {
    SameMembers(s, t);
    forall i | 0 <= i < |s| ensures s[i] in t { assert s[i] in s; }
    forall i | 0 <= i < |t| ensures t[i] in s { assert t[i] in t; }
  }

  /** How many elements at the start pass a test. */
  function PrefixLength<T>(s: seq<T>, p: T -> bool): (n: nat)
    ensures n <= |s| && (forall i :: 0 <= i < n ==> p(s[i])) && (n < |s| ==> !p(s[n]))
  {
    if s != [] && p(s[0]) then 1 + PrefixLength(s[1..], p) else 0
  }

  /** The positions of the elements that pass a test, in increasing order. */
  function Positions<T>(s: seq<T>, p: T -> bool): (r: seq<nat>)
    ensures forall k :: 0 <= k < |r| ==> r[k] < |s| && p(s[r[k]])
    ensures forall i :: 0 <= i < |s| && p(s[i]) ==> i in r
    ensures forall j, k :: 0 <= j < k < |r| ==> r[j] < r[k]
  {
    if s == [] then []
    else
      var n := |s| - 1;
      var before := Positions(s[..n], p);
      assert forall i :: 0 <= i < n ==> s[..n][i] == s[i];
      if p(s[n]) then before + [n] else before
  }

  function Without<T>(s: seq<T>, i: nat): seq<T>
    requires i < |s|
  {
    s[..i] + s[i + 1..]
  }

  lemma WithoutMultiset<T>(s: seq<T>, i: nat)
    requires i < |s|
    ensures multiset(Without(s, i)) == multiset(s) - multiset{s[i]}
  {
    assert s == s[..i] + [s[i]] + s[i + 1..];
  }

  /** The head of one permutation occurs in the other; removing it from both leaves permutations. */
  lemma RemoveHead<T>(s: seq<T>, t: seq<T>) returns (i: nat)
    requires multiset(s) == multiset(t) && s != []
    ensures i < |t| && t[i] == s[0] && multiset(s[1..]) == multiset(Without(t, i))
  {
    SameMembers(s, t);
    assert s[0] in t;
    i :| 0 <= i < |t| && t[i] == s[0];
    WithoutMultiset(t, i);
    TailMultiset(s);
  }

  lemma {:induction false} FilterSplits<T>(s: seq<T>, t: seq<T>, p: T -> bool)
    ensures Filter(s + t, p) == Filter(s, p) + Filter(t, p)
  {
    if s == [] {
      assert s + t == t;
    } else {
      FilterSplits(s[1..], t, p);
      assert (s + t)[0] == s[0] && (s + t)[1..] == s[1..] + t;
      var head := if p(s[0]) then [s[0]] else [];
      assert head + (Filter(s[1..], p) + Filter(t, p)) == (head + Filter(s[1..], p)) + Filter(t, p);
    }
  }

  lemma FilterAround<T>(t: seq<T>, i: nat, p: T -> bool)
    requires i < |t|
    ensures multiset(Filter(t, p))
            == multiset(Filter(Without(t, i), p)) + (if p(t[i]) then multiset{t[i]} else multiset{})
  {
    hide Filter;
    var before, x, after := t[..i], [t[i]], t[i + 1..];
    FilterSplits(before, after, p);
    FilterSplits(before, x + after, p);
    FilterSplits(x, after, p);
    FilterOne(t[i], p);
    assert t == before + (x + after);
  }

  lemma FilterOne<T>(x: T, p: T -> bool)
    ensures Filter([x], p) == if p(x) then [x] else []
  {
    assert [x][1..] == [];
  }

  lemma {:induction false} FilterPermutes<T>(s: seq<T>, t: seq<T>, p: T -> bool)
    requires multiset(s) == multiset(t)
    ensures multiset(Filter(s, p)) == multiset(Filter(t, p))
  {
    if s == [] {
      SameLength(s, t);
    } else {
      var i := RemoveHead(s, t);
      FilterPermutes(s[1..], Without(t, i), p);
      FilterAround(t, i, p);
    }
  }

  lemma {:induction false} MapPermutes<T, U>(s: seq<T>, t: seq<T>, f: T -> U)
    requires multiset(s) == multiset(t)
    ensures multiset(Map(s, f)) == multiset(Map(t, f))
  {
    if s == [] {
      SameLength(s, t);
    } else {
      var i := RemoveHead(s, t);
      MapPermutes(s[1..], Without(t, i), f);
      assert Map(s, f) == [f(s[0])] + Map(s[1..], f);
      assert Map(Without(t, i), f) == Without(Map(t, f), i);
      WithoutMultiset(Map(t, f), i);
    }
  }

  lemma {:induction false} FilterMembers<T>(s: seq<T>, p: T -> bool)
    ensures forall x :: x in Filter(s, p) <==> x in s && p(x)
  {
    if s != [] {
      FilterMembers(s[1..], p);
      assert s == [s[0]] + s[1..];
    }
  }

  lemma MapSplits<T, U>(s: seq<T>, t: seq<T>, f: T -> U)
    ensures Map(s + t, f) == Map(s, f) + Map(t, f)
  {
  }
}
