/**
 * Insertion-ordered sets: a JavaScript `Set`, or the key order of a `Map`, is the sequence of
 * distinct values in the order they were first added.
 */
module Seqs {

  ghost predicate NoDup<T>(s: seq<T>) {
    forall i, j | 0 <= i < j < |s| :: s[i] != s[j]
  }

  /** Position of the first occurrence of `x`. */
  ghost function FirstIndex<T>(s: seq<T>, x: T): (i: nat)
    requires x in s
    ensures i < |s| && s[i] == x && x !in s[..i]
  {
    if s[0] == x then 0 else 1 + FirstIndex(s[1..], x)
  }

  /** Appending does not move a first occurrence. */
  lemma {:induction false} FirstIndexAppend<T>(s: seq<T>, y: T, x: T)
    requires x in s
    ensures FirstIndex(s + [y], x) == FirstIndex(s, x)
  {
    if s[0] != x {
      assert (s + [y])[1..] == s[1..] + [y];
      FirstIndexAppend(s[1..], y, x);
    }
  }

  /** The values of `s` in first-seen order: what `new Set(s)` iterates, or `Set.add` builds. */
  function Dedup<T(==)>(s: seq<T>): seq<T>
    decreases |s|
  {
    if s == [] then []
    else
      var d := Dedup(s[..|s| - 1]);
      if s[|s| - 1] in d then d else d + [s[|s| - 1]]
  }

  /** Each value of `s` appears once, nothing else appears, and the order is first-seen order. */
  lemma {:induction false} DedupSpec<T>(s: seq<T>)
    ensures NoDup(Dedup(s))
    ensures forall x :: x in Dedup(s) <==> x in s
    ensures forall i, j | 0 <= i < j < |Dedup(s)| ::
      FirstIndex(s, Dedup(s)[i]) < FirstIndex(s, Dedup(s)[j])
  {
    if s != [] {
      var p := s[..|s| - 1];
      var y := s[|s| - 1];
      assert s == p + [y];
      DedupSpec(p);
      var d := Dedup(p);
      forall x | x in p ensures FirstIndex(s, x) == FirstIndex(p, x) && FirstIndex(p, x) < |p| {
        FirstIndexAppend(p, y, x);
      }
      if y !in d {
        assert y !in p;
        assert FirstIndex(s, y) == |p|;
      }
    }
  }

  /** One more value: it is appended to `Dedup` when it has not been seen before. */
  lemma DedupSnoc<T>(s: seq<T>, y: T)
    ensures Dedup(s + [y]) == if y in Dedup(s) then Dedup(s) else Dedup(s) + [y]
  {
    assert (s + [y])[..|s|] == s;
  }

  /** `Dedup` keeps exactly the values of `s`. */
  lemma {:induction false} DedupMembers<T>(s: seq<T>)
    ensures forall x :: x in Dedup(s) <==> x in s
    decreases |s|
  {
    if s != [] {
      var p := s[..|s| - 1];
      DedupMembers(p);
      assert s == p + [s[|s| - 1]];
    }
  }

  /** `Dedup` holds each value once. */
  lemma {:induction false} DedupDistinct<T>(s: seq<T>)
    ensures NoDup(Dedup(s))
    decreases |s|
  {
    if s != [] {
      var p := s[..|s| - 1];
      DedupDistinct(p);
      DedupSnoc(p, s[|s| - 1]);
      assert s == p + [s[|s| - 1]];
    }
  }

  /** The first value of `s` comes first in `Dedup(s)`. */
  lemma {:induction false} DedupFirst<T>(s: seq<T>)
    requires s != []
    ensures Dedup(s) != [] && Dedup(s)[0] == s[0]
    decreases |s|
  {
    if |s| > 1 {
      var front := s[..|s| - 1];
      DedupFirst(front);
      assert front[0] == s[0];
    }
  }

  lemma AppendAssoc<T>(a: seq<T>, b: seq<T>, c: seq<T>)
    ensures (a + b) + c == a + (b + c)
  {
  }

  /** A sequence is its prefix before i, its element at i and the rest. */
  lemma SplitAround<T>(s: seq<T>, i: nat)
    requires i < |s|
    ensures s == s[..i] + [s[i]] + s[i + 1..]
  {
  }

  /** A loop that threads a state through the elements: the results in order, and the last state. */
  function Thread<T, R, S>(f: (T, S) -> (R, S), xs: seq<T>, s: S): (r: (seq<R>, S))
    ensures |r.0| == |xs|
    decreases |xs|
  {
    if xs == [] then ([], s)
    else
      var before := Thread(f, xs[..|xs| - 1], s);
      var one := f(xs[|xs| - 1], before.1);
      (before.0 + [one.0], one.1)
  }

  /** The result at position i is what `f` gives on `xs[i]` in the state the earlier elements left. */
  lemma {:induction false} ThreadAt<T, R, S>(f: (T, S) -> (R, S), xs: seq<T>, s: S, i: nat)
    requires i < |xs|
    ensures Thread(f, xs, s).0[i] == f(xs[i], Thread(f, xs[..i], s).1).0
    decreases |xs|
  {
    var n := |xs| - 1;
    if i < n {
      ThreadAt(f, xs[..n], s, i);
      assert xs[..n][..i] == xs[..i];
    } else {
      assert xs[..i] == xs[..n];
    }
  }

  /** `s.map(f)`, built one element at a time. */
  function MapSeq<A, B>(f: A -> B, s: seq<A>): (r: seq<B>)
    ensures |r| == |s|
    decreases |s|
  {
    if s == [] then [] else MapSeq(f, s[..|s| - 1]) + [f(s[|s| - 1])]
  }

  lemma {:induction false} MapSeqAt<A, B>(f: A -> B, s: seq<A>, k: nat)
    requires k < |s|
    ensures MapSeq(f, s)[k] == f(s[k])
    decreases |s|
  {
    var n := |s| - 1;
    if k < n {
      MapSeqAt(f, s[..n], k);
    }
  }

  /** The values of a prefix are values of the sequence. */
  lemma PrefixWithin<T>(s: seq<T>, n: nat)
    requires n <= |s|
    ensures forall x | x in s[..n] :: x in s
  {
    forall x | x in s[..n] ensures x in s {
      var i :| 0 <= i < n && s[..n][i] == x;
      assert s[i] == x;
    }
  }
}
