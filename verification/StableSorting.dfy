/** Stable sorting by a numeric key. */
module StableSorting {
  // A new element goes behind every element whose key is not larger.
  function Inserted<T>(key: T -> nat, s: seq<T>, x: T): seq<T> {
    if s == [] || key(s[|s| - 1]) <= key(x) then s + [x]
    else Inserted(key, s[..|s| - 1], x) + [s[|s| - 1]]
  }

  function StablySorted<T>(key: T -> nat, s: seq<T>): seq<T> {
    if s == [] then [] else Inserted(key, StablySorted(key, s[..|s| - 1]), s[|s| - 1])
  }

  predicate Ordered<T>(key: T -> nat, s: seq<T>) {
    forall i, j | 0 <= i < j < |s| :: key(s[i]) <= key(s[j])
  }

  function WithKey<T>(key: T -> nat, s: seq<T>, k: nat): seq<T> {
    if s == [] then []
    else WithKey(key, s[..|s| - 1], k) + (if key(s[|s| - 1]) == k then [s[|s| - 1]] else [])
  }

  ghost predicate InsertedAt<T>(key: T -> nat, s: seq<T>, x: T, p: nat) {
    && p <= |s|
    && Inserted(key, s, x) == s[..p] + [x] + s[p..]
    && (forall i | 0 <= i < p :: key(s[i]) <= key(x))
    && (forall i | p <= i < |s| :: key(x) < key(s[i]))
  }

  lemma {:induction false} InsertionPoint<T>(key: T -> nat, s: seq<T>, x: T) returns (p: nat)
    requires Ordered(key, s)
    ensures InsertedAt(key, s, x, p)
  {
    if s == [] || key(s[|s| - 1]) <= key(x) {
      p := |s|;
      assert s[..p] == s && s[p..] == [];
    } else {
      var n := |s| - 1;
      p := InsertionPoint(key, s[..n], x);
      assert s[..n][..p] == s[..p] && s[p..] == s[..n][p..] + [s[n]];
    }
  }

  lemma {:induction false} WithKeyConcat<T>(key: T -> nat, a: seq<T>, b: seq<T>, k: nat)
    ensures WithKey(key, a + b, k) == WithKey(key, a, k) + WithKey(key, b, k)
  {
    if b == [] {
      assert a + b == a;
    } else {
      var n := |b| - 1;
      WithKeyConcat(key, a, b[..n], k);
      assert (a + b)[..|a + b| - 1] == a + b[..n];
    }
  }

  lemma {:induction false} NoneWithKey<T>(key: T -> nat, s: seq<T>, k: nat)
    requires forall i | 0 <= i < |s| :: key(s[i]) != k
    ensures WithKey(key, s, k) == []
  {
    if s != [] {
      NoneWithKey(key, s[..|s| - 1], k);
    }
  }

  lemma InsertionIsStable<T>(key: T -> nat, s: seq<T>, x: T, k: nat)
    requires Ordered(key, s)
    ensures WithKey(key, Inserted(key, s, x), k) == WithKey(key, s, k) + WithKey(key, [x], k)
  {
    var p := InsertionPoint(key, s, x);
    var low, high := s[..p], s[p..];
    assert s == low + high;
    WithKeyConcat(key, low + [x], high, k);
    WithKeyConcat(key, low, [x], k);
    WithKeyConcat(key, low, high, k);
    if key(x) == k {
      NoneWithKey(key, high, k);
    } else {
      NoneWithKey(key, [x], k);
    }
  }

  lemma InsertionKeepsOrder<T>(key: T -> nat, s: seq<T>, x: T)
    requires Ordered(key, s)
    ensures Ordered(key, Inserted(key, s, x))
    ensures multiset(Inserted(key, s, x)) == multiset(s) + multiset{x}
  {
    var p := InsertionPoint(key, s, x);
    assert s == s[..p] + s[p..];
  }

  /** The result is in order and has the same elements. */
  lemma {:induction false} SortedIsOrdered<T>(key: T -> nat, s: seq<T>)
    ensures Ordered(key, StablySorted(key, s))
    ensures multiset(StablySorted(key, s)) == multiset(s)
  {
    if s != [] {
      var n := |s| - 1;
      SortedIsOrdered(key, s[..n]);
      assert s == s[..n] + [s[n]];
      InsertionKeepsOrder(key, StablySorted(key, s[..n]), s[n]);
    }
  }

  /** Elements with equal keys stay in the order in which they came. */
  lemma {:induction false} SortingIsStable<T>(key: T -> nat, s: seq<T>, k: nat)
    ensures WithKey(key, StablySorted(key, s), k) == WithKey(key, s, k)
  {
    if s != [] {
      var n := |s| - 1;
      SortingIsStable(key, s[..n], k);
      SortedIsOrdered(key, s[..n]);
      InsertionIsStable(key, StablySorted(key, s[..n]), s[n], k);
      WithKeyConcat(key, s[..n], [s[n]], k);
      assert s == s[..n] + [s[n]];
    }
  }
}
