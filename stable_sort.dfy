/**
 * `Array.prototype.sort` with a consistent comparator, which ECMAScript requires to be stable.
 * Every comparator in the source compares a pair of integers lexicographically (a severity rank
 * then a negated count, a negated timestamp, ...), so the model sorts by a `SortKey` that the
 * caller computes per element: elements with smaller keys come first and ties keep input order.
 */
module StableSort {
  import opened Seqs

  datatype SortKey = SortKey(primary: int, secondary: int)

  /** `compare(a, b) <= 0` for the source's comparators. */
  predicate KeyLe(a: SortKey, b: SortKey) {
    a.primary < b.primary || (a.primary == b.primary && a.secondary <= b.secondary)
  }

  predicate Sorted<T>(s: seq<T>, key: T -> SortKey) {
    forall i, j | 0 <= i < j < |s| :: KeyLe(key(s[i]), key(s[j]))
  }

  /** The elements of `s` whose key is `v`, in order. */
  function WithKey<T>(s: seq<T>, key: T -> SortKey, v: SortKey): (r: seq<T>)
    ensures |r| <= |s|
  {
    if s == [] then []
    else (if key(s[0]) == v then [s[0]] else []) + WithKey(s[1..], key, v)
  }

  /** The sum of `f` over `s`. */
  function SumOf<T>(s: seq<T>, f: T -> int): int {
    if s == [] then 0 else f(s[0]) + SumOf(s[1..], f)
  }

  lemma {:induction false} SumOfConcat<T>(a: seq<T>, b: seq<T>, f: T -> int)
    ensures SumOf(a + b, f) == SumOf(a, f) + SumOf(b, f)
  {
    if a != [] {
      assert (a + b)[1..] == a[1..] + b;
      SumOfConcat(a[1..], b, f);
    } else {
      assert a + b == b;
    }
  }

  /**
   * Inserts `x` in front of the first element whose key is not smaller, so `x` precedes the
   * elements with an equal key.
   */
  function Insert<T>(x: T, s: seq<T>, key: T -> SortKey): (r: seq<T>)
    ensures |r| == |s| + 1 && multiset(r) == multiset(s) + multiset{x}
  {
    if s == [] then [x]
    else if KeyLe(key(x), key(s[0])) then [x] + s
    else
      assert s == [s[0]] + s[1..];
      [s[0]] + Insert(x, s[1..], key)
  }

  lemma {:induction false} InsertSorted<T>(x: T, s: seq<T>, key: T -> SortKey)
    requires Sorted(s, key)
    ensures Sorted(Insert(x, s, key), key)
  {
    if s != [] && !KeyLe(key(x), key(s[0])) {
      var t := Insert(x, s[1..], key);
      InsertSorted(x, s[1..], key);
      forall j | 0 <= j < |t| ensures KeyLe(key(s[0]), key(t[j])) {
        assert t[j] in multiset(t);
        if t[j] != x {
          assert t[j] in multiset(s[1..]);
          var k :| 0 <= k < |s[1..]| && s[1..][k] == t[j];
          assert s[k + 1] == t[j];
        }
      }
    }
  }

  /** Only `x` joins the elements of its key, at their front; the other keys are untouched. */
  lemma {:induction false} InsertWithKey<T>(x: T, s: seq<T>, key: T -> SortKey, v: SortKey)
    ensures WithKey(Insert(x, s, key), key, v)
         == (if v == key(x) then [x] else []) + WithKey(s, key, v)
  {
    if s == [] {
    } else if KeyLe(key(x), key(s[0])) {
      assert ([x] + s)[1..] == s;
    } else {
      var t := Insert(x, s[1..], key);
      InsertWithKey(x, s[1..], key, v);
      assert ([s[0]] + t)[1..] == t;
      assert key(s[0]) != key(x);
    }
  }

  /** Stable insertion sort. */
  function Sort<T>(s: seq<T>, key: T -> SortKey): (r: seq<T>)
    ensures |r| == |s| && multiset(r) == multiset(s)
  {
    if s == [] then []
    else
      assert s == [s[0]] + s[1..];
      Insert(s[0], Sort(s[1..], key), key)
  }

  lemma {:induction false} SortSorted<T>(s: seq<T>, key: T -> SortKey)
    ensures Sorted(Sort(s, key), key)
  {
    if s != [] {
      SortSorted(s[1..], key);
      InsertSorted(s[0], Sort(s[1..], key), key);
    }
  }

  /** Elements with equal keys keep their input order. */
  lemma {:induction false} SortStable<T>(s: seq<T>, key: T -> SortKey, v: SortKey)
    ensures WithKey(Sort(s, key), key, v) == WithKey(s, key, v)
  {
    if s != [] {
      SortStable(s[1..], key, v);
      InsertWithKey(s[0], Sort(s[1..], key), key, v);
    }
  }

  /** Sorting keeps every element, so it keeps every sum over the elements. */
  lemma {:induction false} InsertSum<T>(x: T, s: seq<T>, key: T -> SortKey, f: T -> int)
    ensures SumOf(Insert(x, s, key), f) == f(x) + SumOf(s, f)
  {
    if s != [] && !KeyLe(key(x), key(s[0])) {
      InsertSum(x, s[1..], key, f);
      assert ([s[0]] + Insert(x, s[1..], key))[1..] == Insert(x, s[1..], key);
    } else if s != [] {
      assert ([x] + s)[1..] == s;
    }
  }

  lemma {:induction false} SortSum<T>(s: seq<T>, key: T -> SortKey, f: T -> int)
    ensures SumOf(Sort(s, key), f) == SumOf(s, f)
  {
    if s != [] {
      SortSum(s[1..], key, f);
      InsertSum(s[0], Sort(s[1..], key), key, f);
    }
  }

  /** Sorting distinct elements gives distinct elements. */
  lemma {:induction false} InsertNoDup<T>(x: T, s: seq<T>, key: T -> SortKey)
    requires NoDup(s) && x !in s
    ensures NoDup(Insert(x, s, key))
  {
    if s != [] && !KeyLe(key(x), key(s[0])) {
      var t := Insert(x, s[1..], key);
      assert s == [s[0]] + s[1..];
      InsertNoDup(x, s[1..], key);
      assert s[0] !in multiset(t);
      forall j | 0 <= j < |t| ensures t[j] != s[0] {
        assert t[j] in multiset(t);
      }
    }
  }

  lemma {:induction false} SortNoDup<T>(s: seq<T>, key: T -> SortKey)
    requires NoDup(s)
    ensures NoDup(Sort(s, key))
  {
    if s != [] {
      assert s == [s[0]] + s[1..];
      SortNoDup(s[1..], key);
      assert s[0] !in multiset(Sort(s[1..], key));
      InsertNoDup(s[0], Sort(s[1..], key), key);
    }
  }
}
