/**
  Stable sorting by a numeric key, and why it has only one possible outcome.
 */
module Sorting {
  ghost predicate Ordered<T>(s: seq<T>, key: T -> nat) {
    forall i, j | 0 <= i < j < |s| :: key(s[i]) <= key(s[j])
  }

  /** The elements with one key, in list order. */
  function WithKey<T>(s: seq<T>, key: T -> nat, k: nat): (w: seq<T>)
    ensures w != [] <==> exists i | 0 <= i < |s| :: key(s[i]) == k
  {
    if s == [] then []
    else
      var w := WithKey(s[..|s| - 1], key, k);
      if key(s[|s| - 1]) == k then w + [s[|s| - 1]] else w
  }

  /** `t` is the stable sort of `s`. */
  ghost predicate StablySorted<T>(s: seq<T>, t: seq<T>, key: T -> nat) {
    Ordered(t, key) && multiset(t) == multiset(s) && forall k: nat :: WithKey(t, key, k) == WithKey(s, key, k)
  }

  lemma {:induction false} WithKeyAppend<T>(a: seq<T>, b: seq<T>, key: T -> nat, k: nat)
    ensures WithKey(a + b, key, k) == WithKey(a, key, k) + WithKey(b, key, k)
  {
    if b == [] {
      assert a + b == a;
    } else {
      WithKeyAppend(a, b[..|b| - 1], key, k);
      assert (a + b)[..|a + b| - 1] == a + b[..|b| - 1];
    }
  }

  lemma LastKeys<T>(a: seq<T>, b: seq<T>, key: T -> nat)
    requires Ordered(a, key) && a != [] && b != []
    requires WithKey(a, key, key(b[|b| - 1])) == WithKey(b, key, key(b[|b| - 1]))
    ensures key(b[|b| - 1]) <= key(a[|a| - 1])
  {
    var k := key(b[|b| - 1]);
    assert WithKey(b, key, k) != [];
    var i :| 0 <= i < |a| && key(a[i]) == k;
  }

  /** Two ordered lists that agree key by key are the same list. */
  lemma {:induction false} SortedIsUnique<T>(a: seq<T>, b: seq<T>, key: T -> nat)
    requires |a| == |b| && Ordered(a, key) && Ordered(b, key)
    requires forall k: nat :: WithKey(a, key, k) == WithKey(b, key, k)
    ensures a == b
  {
    if a != [] {
      hide WithKey, Ordered;
      LastKeys(a, b, key);
      LastKeys(b, a, key);
      var fa, x, fb, y := a[..|a| - 1], a[|a| - 1], b[..|b| - 1], b[|b| - 1];
      WithKeyLast(a, key, key(x));
      WithKeyLast(b, key, key(x));
      assert (WithKey(fa, key, key(x)) + [x])[|WithKey(fa, key, key(x))|] == x;
      forall k: nat ensures WithKey(fa, key, k) == WithKey(fb, key, k) {
        WithKeyLast(a, key, k);
        WithKeyLast(b, key, k);
      }
      FrontOrdered(a, key);
      FrontOrdered(b, key);
      SortedIsUnique(fa, fb, key);
      assert a == fa + [x] && b == fb + [y];
    }
  }

  lemma FrontOrdered<T>(s: seq<T>, key: T -> nat)
    requires Ordered(s, key) && s != []
    ensures Ordered(s[..|s| - 1], key)
  {
  }

  lemma WithKeyLast<T>(s: seq<T>, key: T -> nat, k: nat)
    requires s != []
    ensures var w, front, x := WithKey(s, key, k), WithKey(s[..|s| - 1], key, k), s[|s| - 1];
            if key(x) == k then w == front + [x] && w[..|w| - 1] == front else w == front
  {
  }

  /** Insertion sort, last element first past everything not larger. */
  method SortBy<T>(s: seq<T>, key: T -> nat) returns (t: seq<T>)
    ensures StablySorted(s, t, key)
  {
    hide WithKey, StablySorted;
    t := [];
    NothingSorted(key);
    for i := 0 to |s|
      invariant StablySorted(s[..i], t, key)
    {
      var j := |t|;
      while j > 0 && key(t[j - 1]) > key(s[i])
        invariant 0 <= j <= |t| && forall m | j <= m < |t| :: key(t[m]) > key(s[i])
      {
        j := j - 1;
      }
      Inserted(s[..i], t, s[i], j, key);
      assert s[..i + 1] == s[..i] + [s[i]];
      t := t[..j] + [s[i]] + t[j..];
    }
    assert s[..|s|] == s;
  }

  lemma NothingSorted<T>(key: T -> nat)
    ensures StablySorted([], [], key)
  {
  }

  lemma Inserted<T>(s: seq<T>, t: seq<T>, x: T, j: nat, key: T -> nat)
    requires StablySorted(s, t, key) && j <= |t|
    requires (j == 0 || key(t[j - 1]) <= key(x)) && forall m | j <= m < |t| :: key(t[m]) > key(x)
    ensures StablySorted(s + [x], t[..j] + [x] + t[j..], key)
  {
    hide WithKey;
    var longer := t[..j] + [x] + t[j..];
    InsertedOrder(t, x, j, key);
    forall k: nat ensures WithKey(longer, key, k) == WithKey(s + [x], key, k) {
      InsertedKey(s, t, x, j, key, k);
    }
  }

  lemma OrderedJoin<T>(a: seq<T>, b: seq<T>, key: T -> nat)
    requires Ordered(a, key) && Ordered(b, key)
    requires forall i, j | 0 <= i < |a| && 0 <= j < |b| :: key(a[i]) <= key(b[j])
    ensures Ordered(a + b, key)
  {
  }

  lemma InsertedOrder<T>(t: seq<T>, x: T, j: nat, key: T -> nat)
    requires Ordered(t, key) && j <= |t|
    requires (j == 0 || key(t[j - 1]) <= key(x)) && forall m | j <= m < |t| :: key(t[m]) > key(x)
    ensures Ordered(t[..j] + [x] + t[j..], key) && multiset(t[..j] + [x] + t[j..]) == multiset(t) + multiset{x}
  {
    OrderedJoin(t[..j], [x], key);
    OrderedJoin(t[..j] + [x], t[j..], key);
    assert t == t[..j] + t[j..];
  }

  lemma InsertedKey<T>(s: seq<T>, t: seq<T>, x: T, j: nat, key: T -> nat, k: nat)
    requires j <= |t| && WithKey(t, key, k) == WithKey(s, key, k) && forall m | j <= m < |t| :: key(t[m]) > key(x)
    ensures WithKey(t[..j] + [x] + t[j..], key, k) == WithKey(s + [x], key, k)
  {
    hide WithKey;
    var left, right := t[..j], t[j..];
    assert t == left + right;
    WithKeyAppend(left, right, key, k);
    WithKeyAppend(left + [x], right, key, k);
    WithKeyAppend(left, [x], key, k);
    WithKeyAppend(s, [x], key, k);
    assert key(x) == k ==> WithKey(right, key, k) == [];
    assert key(x) != k ==> WithKey([x], key, k) == [];
  }

  /** Every list has a stable sort. */
  lemma {:induction false} SortExists<T>(s: seq<T>, key: T -> nat) returns (t: seq<T>)
    ensures StablySorted(s, t, key)
  {
    hide WithKey, StablySorted;
    if s == [] {
      NothingSorted(key);
      t := [];
    } else {
      var x := s[|s| - 1];
      var u := SortExists(s[..|s| - 1], key);
      var j := |u|;
      while j > 0 && key(u[j - 1]) > key(x)
        invariant 0 <= j <= |u| && forall m | j <= m < |u| :: key(u[m]) > key(x)
      {
        j := j - 1;
      }
      Inserted(s[..|s| - 1], u, x, j, key);
      assert s == s[..|s| - 1] + [x];
      t := u[..j] + [x] + u[j..];
    }
  }

  lemma {:induction false} WithKeyIn<T>(s: seq<T>, key: T -> nat, k: nat, i: nat)
    requires i < |WithKey(s, key, k)|
    ensures WithKey(s, key, k)[i] in s && key(WithKey(s, key, k)[i]) == k
  {
    if s != [] {
      var front := s[..|s| - 1];
      if i < |WithKey(front, key, k)| {
        WithKeyIn(front, key, k, i);
      }
    }
  }
}
