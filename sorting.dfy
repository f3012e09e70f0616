/**
 * Ascending, stable sort by a real-valued key. `SortedByKey` is the
 * specification (insertion sort on sequences); `SortByKey` sorts an array
 * in place and is proved to produce exactly `SortedByKey`.
 */
module Sorting {

  /** The key that sorts a sequence of prices by value. */
  function Id(x: real): real {
    x
  }

  predicate SortedBy<T>(s: seq<T>, key: T -> real) {
    forall i, j :: 0 <= i < j < |s| ==> key(s[i]) <= key(s[j])
  }

  predicate Sorted(s: seq<real>) {
    forall i, j :: 0 <= i < j < |s| ==> s[i] <= s[j]
  }

  /** The keys of `s`, element for element. */
  function Keys<T>(s: seq<T>, key: T -> real): (r: seq<real>)
    ensures |r| == |s| && forall i :: 0 <= i < |s| ==> r[i] == key(s[i])
  {
    seq(|s|, i requires 0 <= i < |s| => key(s[i]))
  }

  /**
   * `x` inserted into `s` after every element whose key is at most `key(x)`,
   * so that elements with equal keys keep their order.
   */
  function Insert<T>(x: T, s: seq<T>, key: T -> real): (r: seq<T>)
    ensures multiset(r) == multiset(s) + multiset{x}
  {
    if s == [] || key(x) < key(s[0]) then [x] + s
    else
      assert s == [s[0]] + s[1..];
      [s[0]] + Insert(x, s[1..], key)
  }

  /** Insertion keeps a sorted sequence sorted. */
  lemma {:induction false} InsertSorted<T>(x: T, s: seq<T>, key: T -> real)
    requires SortedBy(s, key)
    ensures SortedBy(Insert(x, s, key), key)
  {
    if s != [] && !(key(x) < key(s[0])) {
      var rest := Insert(x, s[1..], key);
      InsertSorted(x, s[1..], key);
      forall k | 0 <= k < |rest|
        ensures key(s[0]) <= key(rest[k])
      {
        assert rest[k] in multiset(rest);
        assert rest[k] == x || rest[k] in multiset(s[1..]);
      }
      assert Insert(x, s, key) == [s[0]] + rest;
    }
  }

  /** The stable ascending sort of `s` by `key`: each element in turn inserted into the sorted prefix. */
  function SortedByKey<T>(s: seq<T>, key: T -> real): (r: seq<T>)
    ensures SortedBy(r, key)
    ensures multiset(r) == multiset(s)
  {
    if s == [] then []
    else
      assert s == s[..|s| - 1] + [s[|s| - 1]];
      InsertSorted(s[|s| - 1], SortedByKey(s[..|s| - 1], key), key);
      Insert(s[|s| - 1], SortedByKey(s[..|s| - 1], key), key)
  }

  /**
   * Inserting `x` into a sorted `s` places it at `j` when every key before
   * `j` is at most `key(x)` and every key from `j` on exceeds it.
   */
  lemma {:induction false} InsertAt<T>(x: T, s: seq<T>, key: T -> real, j: nat)
    requires SortedBy(s, key) && j <= |s|
    requires j > 0 ==> key(s[j - 1]) <= key(x)
    requires forall k :: j <= k < |s| ==> key(x) < key(s[k])
    ensures var r := Insert(x, s, key);
      && |r| == |s| + 1 && r[j] == x
      && (forall k :: 0 <= k < j ==> r[k] == s[k])
      && (forall k :: j < k <= |s| ==> r[k] == s[k - 1])
  {
    if j > 0 {
      assert key(s[0]) <= key(x);
      InsertAt(x, s[1..], key, j - 1);
    }
  }

  lemma KeysCons<T>(x: T, s: seq<T>, key: T -> real)
    ensures Keys([x] + s, key) == [key(x)] + Keys(s, key)
    ensures s != [] ==> Keys(s, key)[1..] == Keys(s[1..], key)
  {
  }

  /** Taking keys commutes with insertion: the keys of the result are the sorted insertion of the keys. */
  lemma {:induction false} KeysOfInsert<T>(x: T, s: seq<T>, key: T -> real)
    ensures Keys(Insert(x, s, key), key) == Insert(key(x), Keys(s, key), Id)
  {
    KeysCons(x, s, key);
    if s != [] && !(key(x) < key(s[0])) {
      var rest := Insert(x, s[1..], key);
      KeysOfInsert(x, s[1..], key);
      KeysCons(s[0], rest, key);
      assert !(Id(key(x)) < Id(Keys(s, key)[0]));
    }
  }

  /** Sorting by key and then taking keys gives the sorted keys. */
  lemma {:induction false} KeysOfSorted<T>(s: seq<T>, key: T -> real)
    ensures Keys(SortedByKey(s, key), key) == SortedByKey(Keys(s, key), Id)
  {
    if s != [] {
      var n := |s| - 1;
      var ks := Keys(s, key);
      assert ks[..n] == Keys(s[..n], key);
      assert SortedByKey(ks, Id) == Insert(key(s[n]), SortedByKey(Keys(s[..n], key), Id), Id);
      KeysOfSorted(s[..n], key);
      KeysOfInsert(s[n], SortedByKey(s[..n], key), key);
    }
  }

  /**
   * There is only one ascending arrangement of a multiset of prices, so the
   * sorted price list does not depend on how it was sorted.
   */
  lemma {:induction false} SortedUnique(a: seq<real>, b: seq<real>)
    requires Sorted(a) && Sorted(b) && multiset(a) == multiset(b)
    ensures a == b
  {
    if a != [] {
      assert |b| == |multiset(b)| == |a|;
      assert a[0] in multiset(b) && b[0] in multiset(a);
      assert a[0] == b[0];
      assert a == [a[0]] + a[1..] && b == [b[0]] + b[1..];
      var ta, tb := multiset(a[1..]), multiset(b[1..]);
      assert multiset(a) == multiset{a[0]} + ta && multiset(b) == multiset{a[0]} + tb;
      forall x ensures ta[x] == tb[x] {
        assert multiset(a)[x] == multiset{a[0]}[x] + ta[x];
        assert multiset(b)[x] == multiset{a[0]}[x] + tb[x];
      }
      assert ta == tb;
      SortedUnique(a[1..], b[1..]);
    }
  }

  /** Sorting by the identity key is sorting prices in ascending order. */
  lemma SortedById(s: seq<real>)
    ensures Sorted(SortedByKey(s, Id))
  {
    var r := SortedByKey(s, Id);
    assert SortedBy(r, Id);
    forall i, j | 0 <= i < j < |r|
      ensures r[i] <= r[j]
    {
      assert Id(r[i]) <= Id(r[j]);
    }
  }

  method Swap<T>(a: array<T>, i: nat, j: nat)
    requires i < a.Length && j < a.Length
    modifies a
    ensures a[..] == old(a[..])[i := old(a[j])][j := old(a[i])]
  {
    a[i], a[j] := a[j], a[i];
  }

  /** The state the leftward moves of `SiftDown` end in is the insertion of `x` into `prefix`. */
  lemma SiftResult<T>(b: seq<T>, prefix: seq<T>, x: T, key: T -> real, j: nat)
    requires SortedBy(prefix, key) && j <= |prefix| < |b| && b[j] == x
    requires forall k :: 0 <= k < j ==> b[k] == prefix[k]
    requires forall k :: j < k <= |prefix| ==> b[k] == prefix[k - 1]
    requires forall k :: j <= k < |prefix| ==> key(x) < key(prefix[k])
    requires j > 0 ==> key(prefix[j - 1]) <= key(x)
    ensures b[..|prefix| + 1] == Insert(x, prefix, key)
  {
    InsertAt(x, prefix, key, j);
    var r, c := Insert(x, prefix, key), b[..|prefix| + 1];
    forall k | 0 <= k < |r|
      ensures c[k] == r[k]
    {
      if k < j {
        assert c[k] == prefix[k];
      } else if j < k {
        assert c[k] == prefix[k - 1];
      }
    }
  }

  /**
   * Moves `a[i]` leftwards past the elements with a strictly larger key,
   * inserting it into the sorted prefix `a[..i]`.
   */
  method SiftDown<T>(a: array<T>, i: nat, key: T -> real)
    requires i < a.Length && SortedBy(a[..i], key)
    modifies a
    ensures a[..i + 1] == Insert(old(a[i]), old(a[..i]), key)
    ensures a[i + 1..] == old(a[i + 1..])
  {
    ghost var prefix := a[..i];
    ghost var x := a[i];
    var j := i;
    while j > 0 && key(a[j - 1]) > key(a[j])
      invariant 0 <= j <= i
      invariant a[j] == x
      invariant forall k :: 0 <= k < j ==> a[k] == prefix[k]
      invariant forall k :: j < k <= i ==> a[k] == prefix[k - 1]
      invariant forall k :: j <= k < i ==> key(x) < key(prefix[k])
      invariant a[i + 1..] == old(a[i + 1..])
    {
      Swap(a, j - 1, j);
      j := j - 1;
    }
    SiftResult(a[..], prefix, x, key, j);
  }

  /** Sorting one more element of `s` inserts it into the sorted shorter prefix. */
  lemma SortedPrefixStep<T>(s: seq<T>, i: nat, key: T -> real)
    requires i < |s|
    ensures SortedByKey(s[..i + 1], key) == Insert(s[i], SortedByKey(s[..i], key), key)
  {
    assert s[..i + 1][..i] == s[..i];
  }

  /** In-place insertion sort of `a` by `key`, stable like the sort it models. */
  method SortByKey<T>(a: array<T>, key: T -> real)
    modifies a
    ensures a[..] == SortedByKey(old(a[..]), key)
  {
    ghost var input := a[..];
    var i := 0;
    while i < a.Length
      invariant 0 <= i <= a.Length
      invariant a[..i] == SortedByKey(input[..i], key)
      invariant a[i..] == input[i..]
    {
      assert a[i] == a[i..][0];
      assert a[i + 1..] == a[i..][1..];
      SortedPrefixStep(input, i, key);
      SiftDown(a, i, key);
      assert input[i + 1..] == input[i..][1..];
      i := i + 1;
    }
    assert a[..] == a[..a.Length] && input == input[..a.Length];
  }
}
