/** Go's sorting functions. `Sort` is a stable sort; `SortSlice` promises only what
    `sort.Slice` promises, a sorted permutation. */
module Sorting {
  import Text

  /** What a comparison must satisfy for sorting to make sense: a strict weak order. */
  ghost predicate StrictWeak<T(!new)>(lt: (T, T) -> bool) {
    && (forall a :: !lt(a, a))
    && (forall a, b, c :: lt(a, b) && lt(b, c) ==> lt(a, c))
    && (forall a, b, c :: lt(a, c) ==> lt(a, b) || lt(b, c))
  }

  predicate Sorted<T(!new)>(s: seq<T>, lt: (T, T) -> bool) {
    forall i, j | 0 <= i < j < |s| :: !lt(s[j], s[i])
  }

  /** Different elements of `s` never tie. */
  ghost predicate Separated<T(!new)>(s: seq<T>, lt: (T, T) -> bool) {
    forall a, b | a in s && b in s && a != b :: lt(a, b) || lt(b, a)
  }

  function Insert<T>(x: T, s: seq<T>, lt: (T, T) -> bool): seq<T> {
    if s == [] || !lt(s[0], x) then [x] + s else [s[0]] + Insert(x, s[1..], lt)
  }

  function Sort<T>(s: seq<T>, lt: (T, T) -> bool): seq<T> {
    if s == [] then [] else Insert(s[0], Sort(s[1..], lt), lt)
  }

  lemma {:induction false} InsertPermutes<T>(x: T, s: seq<T>, lt: (T, T) -> bool)
    ensures multiset(Insert(x, s, lt)) == multiset{x} + multiset(s)
  {
    if s != [] && lt(s[0], x) {
      InsertPermutes(x, s[1..], lt);
      assert s == [s[0]] + s[1..];
    }
  }

  lemma {:induction false} SortPermutes<T>(s: seq<T>, lt: (T, T) -> bool)
    ensures multiset(Sort(s, lt)) == multiset(s)
    ensures |Sort(s, lt)| == |s|
  {
    if s != [] {
      SortPermutes(s[1..], lt);
      InsertPermutes(s[0], Sort(s[1..], lt), lt);
      assert s == [s[0]] + s[1..];
    }
    assert |multiset(Sort(s, lt))| == |multiset(s)|;
  }

  lemma {:induction false} InsertSorted<T(!new)>(x: T, s: seq<T>, lt: (T, T) -> bool)
    requires StrictWeak(lt) && Sorted(s, lt)
    ensures Sorted(Insert(x, s, lt), lt)
  {
    if s != [] && lt(s[0], x) {
      InsertSorted(x, s[1..], lt);
      InsertPermutes(x, s[1..], lt);
      var t := Insert(x, s[1..], lt);
      forall k | 0 <= k < |t|
        ensures !lt(t[k], s[0])
      {
        assert t[k] in multiset(t);
        if t[k] != x {
          assert t[k] in s[1..];
        }
      }
    }
  }

  lemma {:induction false} SortSorts<T(!new)>(s: seq<T>, lt: (T, T) -> bool)
    requires StrictWeak(lt)
    ensures Sorted(Sort(s, lt), lt)
  {
    if s != [] {
      SortSorts(s[1..], lt);
      InsertSorted(s[0], Sort(s[1..], lt), lt);
    }
  }

  /** Sorting does nothing exactly to what is sorted already. */
  lemma {:induction false} SortFixed<T(!new)>(s: seq<T>, lt: (T, T) -> bool)
    requires StrictWeak(lt)
    ensures Sort(s, lt) == s <==> Sorted(s, lt)
  {
    if Sorted(s, lt) && s != [] {
      SortFixed(s[1..], lt);
      assert s == [s[0]] + s[1..];
    }
    SortSorts(s, lt);
  }

  /** A sorted permutation is unique when no two different elements tie. */
  lemma {:induction false} SortedUnique<T(!new)>(a: seq<T>, b: seq<T>, lt: (T, T) -> bool)
    requires Sorted(a, lt) && Sorted(b, lt)
    requires multiset(a) == multiset(b)
    requires Separated(a, lt)
    ensures a == b
  {
    assert |multiset(a)| == |a| && |multiset(b)| == |b|;
    if a != [] {
      assert a[0] in multiset(b) && b[0] in multiset(a);
      assert a[0] == b[0];
      assert a == [a[0]] + a[1..] && b == [b[0]] + b[1..];
      assert multiset(a[1..]) == multiset(a) - multiset{a[0]};
      assert multiset(b[1..]) == multiset(b) - multiset{b[0]};
      SortedUnique(a[1..], b[1..], lt);
    }
  }

  /** Sorting forgets the order of its input when nothing ties. */
  lemma SortForgetsOrder<T(!new)>(s: seq<T>, t: seq<T>, lt: (T, T) -> bool)
    requires StrictWeak(lt)
    requires multiset(s) == multiset(t)
    requires Separated(s, lt)
    ensures Sort(s, lt) == Sort(t, lt)
  {
    SortSorts(s, lt);
    SortSorts(t, lt);
    SortPermutes(s, lt);
    SortPermutes(t, lt);
    SameElements(Sort(s, lt), s);
    SortedUnique(Sort(s, lt), Sort(t, lt), lt);
  }

  lemma SameElements<T>(a: seq<T>, b: seq<T>)
    requires multiset(a) == multiset(b)
    ensures forall x :: x in a <==> x in b
  {
    forall x
      ensures x in a <==> x in b
    {
      assert x in multiset(a) <==> x in multiset(b);
    }
  }

  /** `sort.Slice`: callers learn no more than that the result is a sorted permutation. */
  method SortSlice<T(!new)>(s: seq<T>, lt: (T, T) -> bool) returns (r: seq<T>)
    requires StrictWeak(lt)
    ensures Sorted(r, lt)
    ensures multiset(r) == multiset(s)
  {
    r := Sort(s, lt);
    SortSorts(s, lt);
    SortPermutes(s, lt);
  }

  /** Ordering by a string key is a strict weak order. */
  ghost predicate OrdersByKey<T(!new)>(lt: (T, T) -> bool, key: T -> string) {
    forall a, b :: lt(a, b) <==> Text.Less(key(a), key(b))
  }

  lemma KeyOrder<T(!new)>(lt: (T, T) -> bool, key: T -> string)
    requires OrdersByKey(lt, key)
    ensures StrictWeak(lt)
  {
    forall a: T
      ensures !lt(a, a)
    {
      Text.LessIrreflexive(key(a));
    }
    forall a: T, b: T, c: T | lt(a, b) && lt(b, c)
      ensures lt(a, c)
    {
      Text.LessTransitive(key(a), key(b), key(c));
    }
    forall a: T, b: T, c: T | lt(a, c)
      ensures lt(a, b) || lt(b, c)
    {
      if key(a) != key(b) && !lt(a, b) {
        Text.LessConnected(key(a), key(b));
        Text.LessTransitive(key(b), key(a), key(c));
      }
    }
  }
}
