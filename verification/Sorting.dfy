/** The library sort by a caller's comparison: what it keeps, and that a total order leaves it one answer. */
module Sorting {
  ghost predicate TotalOrder<T(!new)>(leq: (T, T) -> bool) {
    && (forall a, b :: leq(a, b) || leq(b, a))
    && (forall a, b :: leq(a, b) && leq(b, a) ==> a == b)
    && (forall a, b, c :: leq(a, b) && leq(b, c) ==> leq(a, c))
  }

  predicate Ordered<T>(s: seq<T>, leq: (T, T) -> bool) {
    forall i, j :: 0 <= i < j < |s| ==> leq(s[i], s[j])
  }

  function Inserted<T>(s: seq<T>, x: T, leq: (T, T) -> bool): seq<T> {
    if s == [] then [x]
    else if leq(x, s[0]) then [x] + s
    else [s[0]] + Inserted(s[1..], x, leq)
  }

  function Sorted<T>(s: seq<T>, leq: (T, T) -> bool): seq<T> {
    if s == [] then [] else Inserted(Sorted(s[..|s| - 1], leq), s[|s| - 1], leq)
  }

  lemma {:induction false} InsertedIsOrdered<T(!new)>(s: seq<T>, x: T, leq: (T, T) -> bool)
    requires TotalOrder(leq) && Ordered(s, leq)
    ensures Ordered(Inserted(s, x, leq), leq) && multiset(Inserted(s, x, leq)) == multiset(s) + multiset{x}
  {
    if s == [] {
    } else if leq(x, s[0]) {
      assert forall j :: 0 < j < |s| ==> leq(s[0], s[j]);
    } else {
      var rest := Inserted(s[1..], x, leq);
      InsertedIsOrdered(s[1..], x, leq);
      assert s == [s[0]] + s[1..];
      forall j | 0 <= j < |rest|
        ensures leq(s[0], rest[j])
      {
        assert rest[j] in multiset(rest);
        assert rest[j] == x || rest[j] in s[1..];
      }
    }
  }

  lemma {:induction false} SortedIsOrdered<T(!new)>(s: seq<T>, leq: (T, T) -> bool)
    requires TotalOrder(leq)
    ensures Ordered(Sorted(s, leq), leq) && multiset(Sorted(s, leq)) == multiset(s)
  {
    if s != [] {
      SortedIsOrdered(s[..|s| - 1], leq);
      InsertedIsOrdered(Sorted(s[..|s| - 1], leq), s[|s| - 1], leq);
      assert s == s[..|s| - 1] + [s[|s| - 1]];
    }
  }

  lemma {:induction false} SmallestIsFirst<T(!new)>(a: seq<T>, b: seq<T>, leq: (T, T) -> bool)
    requires TotalOrder(leq) && Ordered(a, leq) && Ordered(b, leq) && multiset(a) == multiset(b) && a != []
    ensures b != [] && a[0] == b[0]
  {
    assert a[0] in multiset(b);
    assert b[0] in multiset(a);
    var i :| 0 <= i < |b| && b[i] == a[0];
    var j :| 0 <= j < |a| && a[j] == b[0];
    assert leq(a[0], a[j]) && leq(b[0], b[i]);
  }

  /** Two ordered arrangements of the same things are the same. */
  lemma {:induction false} OneOrder<T(!new)>(a: seq<T>, b: seq<T>, leq: (T, T) -> bool)
    requires TotalOrder(leq) && Ordered(a, leq) && Ordered(b, leq) && multiset(a) == multiset(b)
    ensures a == b
  {
    if a == [] {
      assert |multiset(b)| == 0;
    } else {
      SmallestIsFirst(a, b, leq);
      assert a == [a[0]] + a[1..] && b == [b[0]] + b[1..];
      assert multiset(a[1..]) == multiset(a) - multiset{a[0]};
      assert multiset(b[1..]) == multiset(b) - multiset{b[0]};
      OneOrder(a[1..], b[1..], leq);
    }
  }

  /** However the same things are arranged, sorting them comes out the same. */
  lemma SortedForgetsOrder<T(!new)>(a: seq<T>, b: seq<T>, leq: (T, T) -> bool)
    requires TotalOrder(leq) && multiset(a) == multiset(b)
    ensures Sorted(a, leq) == Sorted(b, leq)
  {
    SortedIsOrdered(a, leq);
    SortedIsOrdered(b, leq);
    OneOrder(Sorted(a, leq), Sorted(b, leq), leq);
  }

  lemma TwiceIsTwo<T>(s: seq<T>, i: nat, j: nat)
    requires i < j < |s| && s[i] == s[j]
    ensures multiset(s)[s[i]] >= 2
  {
    assert s == s[..j] + s[j..];
    assert s[..j][i] in multiset(s[..j]);
    assert s[j..][0] in multiset(s[j..]);
  }

  lemma {:induction false} SortedIsPermutation<T>(s: seq<T>, leq: (T, T) -> bool)
    ensures multiset(Sorted(s, leq)) == multiset(s)
  {
    if s != [] {
      SortedIsPermutation(s[..|s| - 1], leq);
      InsertedAdds(Sorted(s[..|s| - 1], leq), s[|s| - 1], leq);
      assert s == s[..|s| - 1] + [s[|s| - 1]];
    }
  }

  lemma {:induction false} InsertedAdds<T>(s: seq<T>, x: T, leq: (T, T) -> bool)
    ensures multiset(Inserted(s, x, leq)) == multiset(s) + multiset{x}
  {
    if s != [] && !leq(x, s[0]) {
      InsertedAdds(s[1..], x, leq);
      assert s == [s[0]] + s[1..];
    }
  }

  // ---------------------------------------------------------------- by a key, largest first

  predicate Descending<T>(s: seq<T>, key: T -> int) {
    forall i, j :: 0 <= i < j < |s| ==> key(s[i]) >= key(s[j])
  }

  /** Those of one key, as they stand. */
  function WithKey<T>(s: seq<T>, key: T -> int, k: int): seq<T> {
    if s == [] then [] else (if key(s[0]) == k then [s[0]] else []) + WithKey(s[1..], key, k)
  }

  lemma {:induction false} WithKeyOfSmaller<T>(s: seq<T>, key: T -> int, k: int)
    requires forall i :: 0 <= i < |s| ==> key(s[i]) < k
    ensures WithKey(s, key, k) == []
  {
    if s != [] {
      WithKeyOfSmaller(s[1..], key, k);
    }
  }

  ghost predicate LargerFirst<T(!new)>(leq: (T, T) -> bool, key: T -> int) {
    forall a, b {:trigger leq(a, b)} :: leq(a, b) <==> key(a) > key(b)
  }

  lemma {:induction false} InsertedDescends<T(!new)>(s: seq<T>, x: T, leq: (T, T) -> bool, key: T -> int)
    requires LargerFirst(leq, key) && Descending(s, key)
    ensures Descending(Inserted(s, x, leq), key)
  {
    if s != [] && !leq(x, s[0]) {
      var rest := Inserted(s[1..], x, leq);
      InsertedDescends(s[1..], x, leq, key);
      InsertedAdds(s[1..], x, leq);
      forall j | 0 <= j < |rest|
        ensures key(s[0]) >= key(rest[j])
      {
        assert rest[j] in multiset(rest);
        assert rest[j] == x || rest[j] in s[1..];
      }
    }
  }

  lemma WithKeyOfFirst<T>(x: T, s: seq<T>, key: T -> int, k: int)
    ensures WithKey([x] + s, key, k) == (if key(x) == k then [x] else []) + WithKey(s, key, k)
  {
    assert ([x] + s)[1..] == s;
  }

  /** A thing put in front of the first smaller one comes after all of its own key. */
  lemma {:induction false} InsertedComesLast<T(!new)>(s: seq<T>, x: T, leq: (T, T) -> bool, key: T -> int, k: int)
    requires LargerFirst(leq, key) && Descending(s, key)
    ensures WithKey(Inserted(s, x, leq), key, k) == WithKey(s, key, k) + if key(x) == k then [x] else []
  {
    if s == [] {
      WithKeyOfFirst(x, [], key, k);
    } else if leq(x, s[0]) {
      WithKeyOfFirst(x, s, key, k);
      if key(x) == k {
        WithKeyOfSmaller(s, key, k);
      }
    } else {
      InsertedComesLast(s[1..], x, leq, key, k);
      WithKeyOfFirst(s[0], Inserted(s[1..], x, leq), key, k);
    }
  }

  /** Sorting by a key puts the largest first and leaves equals in the order they came. */
  lemma {:induction false} SortedByKey<T(!new)>(s: seq<T>, leq: (T, T) -> bool, key: T -> int, k: int)
    requires LargerFirst(leq, key)
    ensures Descending(Sorted(s, leq), key) && WithKey(Sorted(s, leq), key, k) == WithKey(s, key, k)
  {
    if s != [] {
      var front, last := s[..|s| - 1], s[|s| - 1];
      SortedByKey(front, leq, key, k);
      InsertedDescends(Sorted(front, leq), last, leq, key);
      InsertedComesLast(Sorted(front, leq), last, leq, key, k);
      WithKeyOfLast(front, last, key, k);
      assert s == front + [last];
    }
  }

  lemma {:induction false} WithKeyOfLast<T>(s: seq<T>, x: T, key: T -> int, k: int)
    ensures WithKey(s + [x], key, k) == WithKey(s, key, k) + if key(x) == k then [x] else []
  {
    if s == [] {
      assert [] + [x] == [x];
    } else {
      WithKeyOfLast(s[1..], x, key, k);
      assert (s + [x])[1..] == s[1..] + [x];
    }
  }

  method Sort<T>(s: seq<T>, leq: (T, T) -> bool) returns (sorted: seq<T>)
    ensures sorted == Sorted(s, leq)
  {
    sorted := [];
    for k := 0 to |s|
      invariant sorted == Sorted(s[..k], leq)
    {
      sorted := Inserted(sorted, s[k], leq);
      assert s[..k + 1][..k] == s[..k];
    }
    assert s[..|s|] == s;
  }
}
