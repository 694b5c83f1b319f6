/** Sums and keyed selections over sequences, used by every part of the read planner. */
module Sequences {

  function Sum(s: seq<nat>): nat {
    if s == [] then 0 else Sum(s[..|s| - 1]) + s[|s| - 1]
  }

  lemma SumAppend(s: seq<nat>, x: nat)
    ensures Sum(s + [x]) == Sum(s) + x
  {
    assert (s + [x])[..|s|] == s;
  }

  lemma {:induction false} SumUpdate(s: seq<nat>, i: nat, x: nat)
    requires i < |s|
    ensures Sum(s[i := x]) == Sum(s) - s[i] + x
    ensures s[i] <= Sum(s)
  {
    var n := |s| - 1;
    if i == n {
      assert s[i := x][..n] == s[..n];
    } else {
      assert s[i := x][..n] == s[..n][i := x];
      SumUpdate(s[..n], i, x);
    }
  }

  lemma {:induction false} SumConcat(a: seq<nat>, b: seq<nat>)
    ensures Sum(a + b) == Sum(a) + Sum(b)
  {
    if b == [] {
      assert a + b == a;
    } else {
      var n := |b| - 1;
      assert (a + b)[..|a + b| - 1] == a + b[..n];
      SumConcat(a, b[..n]);
    }
  }

  lemma SumPrefixStep(s: seq<nat>, i: nat)
    requires i < |s|
    ensures Sum(s[..i + 1]) == Sum(s[..i]) + s[i]
  {
    assert s[..i + 1] == s[..i] + [s[i]];
    SumAppend(s[..i], s[i]);
  }

  lemma {:induction false} SumPrefixMonotone(s: seq<nat>, i: nat, j: nat)
    requires i <= j <= |s|
    ensures Sum(s[..i]) <= Sum(s[..j])
    decreases j - i
  {
    if i < j {
      SumPrefixStep(s, i);
      SumPrefixMonotone(s, i + 1, j);
    }
  }

  lemma {:induction false} SumOfZeroes(s: seq<nat>)
    requires forall i :: 0 <= i < |s| ==> s[i] == 0
    ensures Sum(s) == 0
  {
    if s != [] { SumOfZeroes(s[..|s| - 1]); }
  }

  /** The elements of s whose key is k, in order. */
  function Select<T>(s: seq<T>, key: T -> nat, k: nat): seq<T> {
    if s == [] then []
    else
      var rest := Select(s[..|s| - 1], key, k);
      if key(s[|s| - 1]) == k then rest + [s[|s| - 1]] else rest
  }

  lemma SelectAppend<T>(s: seq<T>, x: T, key: T -> nat, k: nat)
    ensures Select(s + [x], key, k) == if key(x) == k then Select(s, key, k) + [x] else Select(s, key, k)
  {
    assert (s + [x])[..|s|] == s;
  }

  lemma {:induction false} SelectConcat<T>(s: seq<T>, t: seq<T>, key: T -> nat, k: nat)
    ensures Select(s + t, key, k) == Select(s, key, k) + Select(t, key, k)
  {
    if t == [] {
      assert s + t == s;
    } else {
      var n := |t| - 1;
      assert s + t == (s + t[..n]) + [t[n]];
      SelectConcat(s, t[..n], key, k);
      SelectAppend(s + t[..n], t[n], key, k);
    }
  }

  lemma {:induction false} SelectMembers<T>(s: seq<T>, key: T -> nat, k: nat)
    ensures forall x :: x in Select(s, key, k) <==> x in s && key(x) == k
  {
    if s != [] {
      var n := |s| - 1;
      SelectMembers(s[..n], key, k);
      assert s == s[..n] + [s[n]];
    }
  }

  lemma {:induction false} SelectNone<T>(s: seq<T>, key: T -> nat, k: nat)
    requires forall x :: x in s ==> key(x) != k
    ensures Select(s, key, k) == []
  {
    if s != [] { SelectNone(s[..|s| - 1], key, k); }
  }

  lemma {:induction false} SelectAll<T>(s: seq<T>, key: T -> nat, k: nat)
    requires forall x :: x in s ==> key(x) == k
    ensures Select(s, key, k) == s
  {
    if s != [] {
      SelectAll(s[..|s| - 1], key, k);
      assert s == s[..|s| - 1] + [s[|s| - 1]];
    }
  }

  /** The weights of all elements, added up. */
  function Weight<T>(s: seq<T>, f: T -> nat): nat {
    if s == [] then 0 else Weight(s[..|s| - 1], f) + f(s[|s| - 1])
  }

  lemma WeightAppend<T>(s: seq<T>, x: T, f: T -> nat)
    ensures Weight(s + [x], f) == Weight(s, f) + f(x)
  {
    assert (s + [x])[..|s|] == s;
  }

  lemma {:induction false} WeightConcat<T>(s: seq<T>, t: seq<T>, f: T -> nat)
    ensures Weight(s + t, f) == Weight(s, f) + Weight(t, f)
  {
    if t == [] {
      assert s + t == s;
    } else {
      var n := |t| - 1;
      assert s + t == (s + t[..n]) + [t[n]];
      WeightConcat(s, t[..n], f);
      WeightAppend(s + t[..n], t[n], f);
    }
  }

  lemma {:induction false} WeightZero<T>(s: seq<T>, f: T -> nat)
    requires forall x :: x in s ==> f(x) == 0
    ensures Weight(s, f) == 0
  {
    if s != [] { WeightZero(s[..|s| - 1], f); }
  }

  /** The weights of the elements with a key below n, taken key by key. */
  function WeightByKey<T>(s: seq<T>, key: T -> nat, f: T -> nat, n: nat): nat {
    if n == 0 then 0 else WeightByKey(s, key, f, n - 1) + Weight(Select(s, key, n - 1), f)
  }

  lemma {:induction false} SelectedWeightAppend<T>(s: seq<T>, x: T, key: T -> nat, f: T -> nat, k: nat)
    ensures Weight(Select(s + [x], key, k), f) == Weight(Select(s, key, k), f) + if key(x) == k then f(x) else 0
  {
    SelectAppend(s, x, key, k);
    WeightAppend(Select(s, key, k), x, f);
  }

  lemma {:induction false} WeightByKeyAppend<T>(s: seq<T>, x: T, key: T -> nat, f: T -> nat, n: nat)
    ensures WeightByKey(s + [x], key, f, n) == WeightByKey(s, key, f, n) + if key(x) < n then f(x) else 0
  {
    if n > 0 {
      WeightByKeyAppend(s, x, key, f, n - 1);
      SelectedWeightAppend(s, x, key, f, n - 1);
      hide Weight, Select;
    }
  }

  lemma {:induction false} WeightByKeyEmpty<T>(key: T -> nat, f: T -> nat, n: nat)
    ensures WeightByKey([], key, f, n) == 0
  {
    if n > 0 { WeightByKeyEmpty(key, f, n - 1); }
  }

  /** Distributing elements by key loses none and doubles none. */
  lemma {:induction false} WeightPartition<T>(s: seq<T>, key: T -> nat, f: T -> nat, n: nat)
    requires forall x :: x in s ==> key(x) < n
    ensures WeightByKey(s, key, f, n) == Weight(s, f)
  {
    if s == [] {
      WeightByKeyEmpty(key, f, n);
    } else {
      var m := |s| - 1;
      assert s == s[..m] + [s[m]];
      WeightPartition(s[..m], key, f, n);
      WeightByKeyAppend(s[..m], s[m], key, f, n);
    }
  }

  /** Exactly one element weighs one and the others nothing. */
  lemma {:induction false} WeightOne<T>(s: seq<T>, f: T -> nat, k: nat)
    requires k < |s| && f(s[k]) == 1
    requires forall i :: 0 <= i < |s| && i != k ==> f(s[i]) == 0
    ensures Weight(s, f) == 1
  {
    var n := |s| - 1;
    if k == n {
      forall x | x in s[..n]
        ensures f(x) == 0
      {
        var i :| 0 <= i < n && s[i] == x;
      }
      WeightZero(s[..n], f);
    } else {
      WeightOne(s[..n], f, k);
    }
  }

  lemma {:induction false} WeightPositive<T>(s: seq<T>, f: T -> nat)
    requires Weight(s, f) > 0
    ensures exists x :: x in s && f(x) > 0
  {
    if forall x :: x in s ==> f(x) == 0 { WeightZero(s, f); }
  }

  lemma {:induction false} WeightAtLeast<T>(s: seq<T>, f: T -> nat, k: nat)
    requires k < |s|
    ensures Weight(s, f) >= f(s[k])
  {
    if k < |s| - 1 { WeightAtLeast(s[..|s| - 1], f, k); }
  }

  lemma {:induction false} WeightTwo<T>(s: seq<T>, f: T -> nat, i: nat, j: nat)
    requires i < j < |s|
    ensures Weight(s, f) >= f(s[i]) + f(s[j])
  {
    var n := |s| - 1;
    if j < n { WeightTwo(s[..n], f, i, j); } else { WeightAtLeast(s[..n], f, i); }
  }

  lemma {:induction false} WeightSame<T>(s: seq<T>, f: T -> nat, g: T -> nat)
    requires forall x :: x in s ==> f(x) == g(x)
    ensures Weight(s, f) == Weight(s, g)
  {
    if s != [] { WeightSame(s[..|s| - 1], f, g); }
  }

  /** Items that each weigh what their key's share weighs, together weigh what all shares do. */
  lemma {:induction false} WeightOfShares<T, U>(items: seq<U>, g: U -> nat, s: seq<T>, key: T -> nat, f: T -> nat)
    requires forall k :: 0 <= k < |items| ==> g(items[k]) == Weight(Select(s, key, k), f)
    ensures Weight(items, g) == WeightByKey(s, key, f, |items|)
  {
    if items != [] {
      var n := |items| - 1;
      WeightOfShares(items[..n], g, s, key, f);
      hide Select;
      assert g(items[n]) == Weight(Select(s, key, n), f);
    }
  }

  lemma {:induction false} WeightUpdate<T>(s: seq<T>, f: T -> nat, i: nat, x: T)
    requires i < |s|
    ensures Weight(s[i := x], f) + f(s[i]) == Weight(s, f) + f(x)
  {
    var n := |s| - 1;
    if i == n {
      assert s[i := x][..n] == s[..n];
    } else {
      assert s[i := x][..n] == s[..n][i := x];
      WeightUpdate(s[..n], f, i, x);
    }
  }

  /** What a selection weighs is no more than what it was taken from. */
  lemma {:induction false} SelectedWeighsLess<T>(s: seq<T>, key: T -> nat, k: nat, f: T -> nat)
    ensures Weight(Select(s, key, k), f) <= Weight(s, f)
  {
    if s != [] {
      var n := |s| - 1;
      SelectedWeighsLess(s[..n], key, k, f);
      if key(s[n]) == k { WeightAppend(Select(s[..n], key, k), s[n], f); }
    }
  }

  /** How many of the first u items the key selects. */
  function PlaceOf<T>(s: seq<T>, key: T -> nat, k: nat, u: nat): nat
    requires u <= |s|
  {
    |Select(s[..u], key, k)|
  }

  lemma {:induction false} PlaceStep<T>(s: seq<T>, key: T -> nat, k: nat, u: nat)
    requires u < |s|
    ensures PlaceOf(s, key, k, u + 1) == PlaceOf(s, key, k, u) + if key(s[u]) == k then 1 else 0
  {
    assert s[..u + 1][..u] == s[..u];
  }

  lemma {:induction false} PlaceRises<T>(s: seq<T>, key: T -> nat, k: nat, u: nat, v: nat)
    requires u <= v <= |s|
    ensures PlaceOf(s, key, k, u) <= PlaceOf(s, key, k, v)
    ensures u < v && key(s[u]) == k ==> PlaceOf(s, key, k, u) < PlaceOf(s, key, k, v)
  {
    if u < v {
      PlaceRises(s, key, k, u, v - 1);
      PlaceStep(s, key, k, v - 1);
      if u == v - 1 { PlaceStep(s, key, k, u); }
    }
  }

  /** A selected item stands in the selection at that place. */
  lemma {:induction false} PlaceIs<T>(s: seq<T>, key: T -> nat, k: nat, u: nat)
    requires u < |s| && key(s[u]) == k
    ensures PlaceOf(s, key, k, u) < |Select(s, key, k)| && Select(s, key, k)[PlaceOf(s, key, k, u)] == s[u]
  {
    var n := |s| - 1;
    if u < n {
      PlaceIs(s[..n], key, k, u);
      assert s[..n][..u] == s[..u];
    }
  }

  /** And every place of the selection is some item's. */
  lemma {:induction false} PlaceHasItem<T>(s: seq<T>, key: T -> nat, k: nat, j: nat) returns (u: nat)
    requires j < |Select(s, key, k)|
    ensures u < |s| && key(s[u]) == k && PlaceOf(s, key, k, u) == j && Select(s, key, k)[j] == s[u]
  {
    var n := |s| - 1;
    if j < |Select(s[..n], key, k)| {
      u := PlaceHasItem(s[..n], key, k, j);
      assert s[..n][..u] == s[..u];
    } else {
      u := n;
    }
  }
}
