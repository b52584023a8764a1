/**
 * JavaScript plain objects used as string-keyed records. An object's entries are a sequence
 * of (key, value) pairs in insertion order.
 */
module Records {
  import opened Wrappers
  import opened Seqs

  type Entries<V> = seq<(string, V)>

  /** `record[k] = v`: an existing key keeps its place and takes the new value; a new key goes last. */
  function Assign<V>(es: Entries<V>, k: string, v: V): (r: Entries<V>)
    decreases |es|
  {
    if es == [] then [(k, v)]
    else if es[0].0 == k then [(k, v)] + es[1..]
    else [es[0]] + Assign(es[1..], k, v)
  }

  /** The record built by assigning every entry of `es` in order to an empty object. */
  function Assigned<V>(es: Entries<V>): Entries<V>
    decreases |es|
  {
    if es == [] then [] else Assign(Assigned(es[..|es| - 1]), es[|es| - 1].0, es[|es| - 1].1)
  }

  predicate HasKey<V>(es: Entries<V>, k: string) {
    exists i | 0 <= i < |es| :: es[i].0 == k
  }

  /** What every JavaScript object guarantees of its entries. */
  predicate DistinctKeys<V>(es: Entries<V>) {
    forall i, j | 0 <= i < j < |es| :: es[i].0 != es[j].0
  }

  /** `record[key]`: the value stored under the first entry with that key. */
  function Lookup<V>(es: Entries<V>, key: string): (r: Option<V>)
    ensures r.None? <==> forall i | 0 <= i < |es| :: es[i].0 != key
    ensures r.Some? ==> exists i | 0 <= i < |es| :: es[i] == (key, r.value)
    decreases |es|
  {
    if es == [] then None
    else if es[0].0 == key then
      assert es[0] == (key, es[0].1);
      Some(es[0].1)
    else
      var r := Lookup(es[1..], key);
      assert forall i | 0 <= i < |es[1..]| :: es[1..][i] == es[i + 1];
      r
  }

  /** The keys of a record in order (`Object.keys`). */
  function Keys<V>(es: Entries<V>): (r: seq<string>)
    ensures |r| == |es| && forall i | 0 <= i < |es| :: r[i] == es[i].0
    decreases |es|
  {
    if es == [] then [] else Keys(es[..|es| - 1]) + [es[|es| - 1].0]
  }

  /** The value of the last entry of `es` with key `k`: the one a run of assignments leaves behind. */
  function LastValue<V>(es: Entries<V>, k: string): Option<V>
    decreases |es|
  {
    if es == [] then None
    else if es[|es| - 1].0 == k then Some(es[|es| - 1].1)
    else LastValue(es[..|es| - 1], k)
  }

  /** A fresh key is appended. */
  lemma {:induction false} AssignFresh<V>(es: Entries<V>, k: string, v: V)
    requires !HasKey(es, k)
    ensures Assign(es, k, v) == es + [(k, v)]
    decreases |es|
  {
    if es != [] {
      assert es[0].0 != k;
      forall i | 0 <= i < |es[1..]| ensures es[1..][i].0 != k {
        assert es[1..][i] == es[i + 1];
      }
      AssignFresh(es[1..], k, v);
      assert es == [es[0]] + es[1..];
    }
  }

  /** Copying a record with distinct keys entry by entry gives back the same record. */
  lemma {:induction false} AssignedDistinct<V>(es: Entries<V>)
    requires DistinctKeys(es)
    ensures Assigned(es) == es
    decreases |es|
  {
    if es != [] {
      var front := es[..|es| - 1];
      var last := es[|es| - 1];
      assert DistinctKeys(front);
      AssignedDistinct(front);
      forall i | 0 <= i < |front| ensures front[i].0 != last.0 {
        assert front[i] == es[i];
      }
      AssignFresh(front, last.0, last.1);
      assert es == front + [last];
    }
  }

  /** `k in record` exactly when `record[k]` is defined. */
  lemma HasKeyLookup<V>(es: Entries<V>, k: string)
    ensures HasKey(es, k) <==> Lookup(es, k).Some?
  {
    if HasKey(es, k) {
      var i :| 0 <= i < |es| && es[i].0 == k;
    }
  }

  /** Assigning keeps the keys of a record distinct. */
  lemma AssignDistinct<V>(es: Entries<V>, k: string, v: V)
    requires DistinctKeys(es)
    ensures DistinctKeys(Assign(es, k, v))
  {
    var r := Assign(es, k, v);
    AssignKeepsKeys(es, k, v);
    forall i, j | 0 <= i < j < |r| ensures r[i].0 != r[j].0 {
      if j < |es| {
        assert r[i].0 == es[i].0 && r[j].0 == es[j].0;
      } else {
        assert r[i].0 == es[i].0;
      }
    }
  }

  /** `LookupAssign` for every key at once. */
  lemma LookupAssignEvery<V>(es: Entries<V>, k: string, v: V)
    ensures forall key :: Lookup(Assign(es, k, v), key) == if key == k then Some(v) else Lookup(es, key)
  {
    forall key ensures Lookup(Assign(es, k, v), key) == if key == k then Some(v) else Lookup(es, key) {
      LookupAssign(es, k, v, key);
    }
  }

  /** Reading back after `record[k] = v`: `v` under `k`, every other key unchanged. */
  lemma {:induction false} LookupAssign<V>(es: Entries<V>, k: string, v: V, key: string)
    ensures Lookup(Assign(es, k, v), key) == if key == k then Some(v) else Lookup(es, key)
    decreases |es|
  {
    if es != [] && es[0].0 != k {
      LookupAssign(es[1..], k, v, key);
    }
  }

  /** After a run of assignments every key reads the value assigned to it last. */
  lemma {:induction false} LookupAssigned<V>(es: Entries<V>, key: string)
    ensures Lookup(Assigned(es), key) == LastValue(es, key)
    decreases |es|
  {
    if es != [] {
      var front := es[..|es| - 1];
      LookupAssigned(front, key);
      LookupAssign(Assigned(front), es[|es| - 1].0, es[|es| - 1].1, key);
    }
  }

  /** The keys of an assigned record are the assigned keys in first-assignment order. */
  lemma {:induction false} KeysAssigned<V>(es: Entries<V>)
    ensures Keys(Assigned(es)) == Dedup(Keys(es))
    decreases |es|
  {
    if es != [] {
      var front := es[..|es| - 1];
      var last := es[|es| - 1];
      KeysAssigned(front);
      assert Keys(es)[..|es| - 1] == Keys(front);
      KeysAssign(Assigned(front), last.0, last.1);
    }
  }

  /** Assigning keeps the key order and appends a key that was not there. */
  lemma {:induction false} KeysAssign<V>(es: Entries<V>, k: string, v: V)
    ensures Keys(Assign(es, k, v)) == if k in Keys(es) then Keys(es) else Keys(es) + [k]
  {
    var r := Assign(es, k, v);
    AssignKeepsKeys(es, k, v);
    if k in Keys(es) {
      var i :| 0 <= i < |es| && Keys(es)[i] == k;
      assert HasKey(es, k);
      assert Keys(r) == Keys(es);
    } else {
      assert !HasKey(es, k) by {
        forall i | 0 <= i < |es| ensures es[i].0 != k {
          assert Keys(es)[i] == es[i].0;
        }
      }
      assert Keys(r) == Keys(es) + [k];
    }
  }

  /** Assigning keeps the key at every position and adds one entry exactly for a new key. */
  lemma {:induction false} AssignKeepsKeys<V>(es: Entries<V>, k: string, v: V)
    ensures |Assign(es, k, v)| == if HasKey(es, k) then |es| else |es| + 1
    ensures forall i | 0 <= i < |es| :: Assign(es, k, v)[i].0 == es[i].0
    ensures !HasKey(es, k) ==> Assign(es, k, v)[|es|].0 == k
    decreases |es|
  {
    if es != [] && es[0].0 != k {
      AssignKeepsKeys(es[1..], k, v);
      assert HasKey(es, k) <==> HasKey(es[1..], k) by {
        if HasKey(es, k) {
          var i :| 0 <= i < |es| && es[i].0 == k;
          assert es[1..][i - 1] == es[i];
        }
        if HasKey(es[1..], k) {
          var i :| 0 <= i < |es[1..]| && es[1..][i].0 == k;
          assert es[i + 1] == es[1..][i];
        }
      }
    } else if es != [] {
      assert HasKey(es, k) by { assert es[0].0 == k; }
    }
  }
}
