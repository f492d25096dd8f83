/**
 * Lists searched by a key: `Array.prototype.findIndex` and `filter` in the
 * frontend stores, and a `findOne` filter over a collection in its natural
 * order in the backend.
 */
module KeyedList {

  /**
   * The index of the first element whose key is `k`, or -1 when there is
   * none (`findIndex(x => key(x) === k)`).
   */
  function IndexOf<T, K(==)>(s: seq<T>, key: T -> K, k: K): (i: int)
    ensures -1 <= i < |s|
    ensures 0 <= i ==> key(s[i]) == k
    ensures 0 <= i ==> forall j :: 0 <= j < i ==> key(s[j]) != k
    ensures i == -1 <==> forall j :: 0 <= j < |s| ==> key(s[j]) != k
    decreases |s|
  {
    if s == [] then -1
    else if key(s[0]) == k then 0
    else
      var i := IndexOf(s[1..], key, k);
      if i == -1 then -1 else i + 1
  }

  /** `s.filter(x => key(x) !== k)`: every element whose key is `k` is dropped. */
  function Without<T(==), K(==)>(s: seq<T>, key: T -> K, k: K): (r: seq<T>)
    ensures |r| <= |s|
    ensures forall j :: 0 <= j < |r| ==> r[j] in s && key(r[j]) != k
    ensures forall j :: 0 <= j < |s| && key(s[j]) != k ==> s[j] in r
    decreases |s|
  {
    if s == [] then []
    else (if key(s[0]) == k then [] else [s[0]]) + Without(s[1..], key, k)
  }

  /**
   * Filtering commutes with concatenation: the kept elements stay in their
   * original relative order.
   */
  lemma {:induction false} WithoutAppend<T, K>(a: seq<T>, b: seq<T>, key: T -> K, k: K)
    ensures Without(a + b, key, k) == Without(a, key, k) + Without(b, key, k)
    decreases |a|
  {
    if a != [] {
      assert (a + b)[1..] == a[1..] + b;
      WithoutAppend(a[1..], b, key, k);
    } else {
      assert a + b == b;
    }
  }

  /** With no element keyed `k`, filtering leaves the list as it was. */
  lemma {:induction false} WithoutNoMatch<T, K>(s: seq<T>, key: T -> K, k: K)
    requires forall j :: 0 <= j < |s| ==> key(s[j]) != k
    ensures Without(s, key, k) == s
    decreases |s|
  {
    if s != [] {
      WithoutNoMatch(s[1..], key, k);
    }
  }

  /** Filtering the same key twice is filtering it once. */
  lemma {:induction false} WithoutIdempotent<T, K>(s: seq<T>, key: T -> K, k: K)
    ensures Without(Without(s, key, k), key, k) == Without(s, key, k)
  {
    var r := Without(s, key, k);
    WithoutNoMatch(r, key, k);
  }

  /** Replacing an element by one with the same key does not move the first match. */
  lemma {:induction false} IndexOfAfterReplace<T, K>(s: seq<T>, key: T -> K, i: int, x: T)
    requires 0 <= i < |s| && i == IndexOf(s, key, key(x))
    ensures IndexOf(s[i := x], key, key(x)) == i
  {
    assert key(s[i := x][i]) == key(x);
  }

  /**
   * `const i = s.findIndex(y => key(y) === key(x)); if (i !== -1) s.splice(i, 1, x)`:
   * the first element keyed like `x` becomes `x`, every other element stays,
   * and with no such element the list is left as it was.
   */
  function ReplaceFirst<T, K(==)>(s: seq<T>, key: T -> K, x: T): (r: seq<T>)
    ensures |r| == |s|
    ensures forall j :: 0 <= j < |s| ==>
      r[j] == if key(s[j]) == key(x) && NoMatchBefore(s, key, key(x), j) then x else s[j]
    ensures (forall j :: 0 <= j < |s| ==> key(s[j]) != key(x)) ==> r == s
  {
    var i := IndexOf(s, key, key(x));
    if i == -1 then s else s[i := x]
  }

  /** No element before position `n` is keyed `k`. */
  predicate NoMatchBefore<T, K(==)>(s: seq<T>, key: T -> K, k: K, n: int)
    requires n <= |s|
  {
    forall j :: 0 <= j < n ==> key(s[j]) != k
  }

  /** Replacing keeps every key where it was. */
  lemma ReplaceFirstKeepsKeys<T, K>(s: seq<T>, key: T -> K, x: T)
    ensures forall j :: 0 <= j < |s| ==> key(ReplaceFirst(s, key, x)[j]) == key(s[j])
  {
  }

  /** Replacing with the same element twice is replacing it once. */
  lemma ReplaceFirstIdempotent<T, K>(s: seq<T>, key: T -> K, x: T)
    ensures ReplaceFirst(ReplaceFirst(s, key, x), key, x) == ReplaceFirst(s, key, x)
  {
  }

  /** Deleting a key after replacing an element with that key is just deleting it. */
  lemma {:induction false} WithoutAfterReplace<T, K>(s: seq<T>, key: T -> K, x: T)
    ensures Without(ReplaceFirst(s, key, x), key, key(x)) == Without(s, key, key(x))
  {
    var i := IndexOf(s, key, key(x));
    if i != -1 {
      var r := s[i := x];
      assert s == s[..i] + [s[i]] + s[i + 1..];
      assert r == s[..i] + [x] + s[i + 1..];
      WithoutAppend(s[..i] + [s[i]], s[i + 1..], key, key(x));
      WithoutAppend(s[..i], [s[i]], key, key(x));
      WithoutAppend(s[..i] + [x], s[i + 1..], key, key(x));
      WithoutAppend(s[..i], [x], key, key(x));
      assert Without([s[i]], key, key(x)) == [] by { assert [s[i]][1..] == []; }
      assert Without([x], key, key(x)) == [] by { assert [x][1..] == []; }
    }
  }
}
