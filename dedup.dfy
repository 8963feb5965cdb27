/**
 * The two deduplications of the pipeline.  The scanners share a
 * HashMap-based one: every record is put under its key in turn, so the map
 * ends up holding, for each key, the last record that carried it, and the
 * output list is the map's values, in an order the model does not fix.
 * The relation builder keeps a list instead and appends a record only when
 * no record already kept carries its key, so the first record per key wins
 * and the input order is kept.
 */
module Dedup {
  /** The keys the records of `xs` carry. */
  function KeysOf<T(==)>(xs: seq<T>, key: T -> string): set<string> {
    set x | x in xs :: key(x)
  }

  /** The map left by `unique.put(key(x), x)` for each `x` of `xs` in order. */
  function LastByKey<T(==)>(xs: seq<T>, key: T -> string): (m: map<string, T>)
    ensures m.Keys == KeysOf(xs, key)
    ensures forall k :: k in m ==> key(m[k]) == k && m[k] in xs
  {
    if xs == [] then map[]
    else
      var init := xs[..|xs| - 1];
      var last := xs[|xs| - 1];
      assert xs == init + [last];
      LastByKey(init, key)[key(last) := last]
  }

  /** A record that no later record shares a key with survives the fill. */
  lemma {:induction false} LastWriteWins<T>(xs: seq<T>, key: T -> string, i: nat)
    requires i < |xs|
    requires forall j :: i < j < |xs| ==> key(xs[j]) != key(xs[i])
    ensures key(xs[i]) in LastByKey(xs, key) && LastByKey(xs, key)[key(xs[i])] == xs[i]
  {
    if i < |xs| - 1 {
      LastWriteWins(xs[..|xs| - 1], key, i);
    }
  }

  /** The record kept under a key is the last record of `xs` that carries it: the one at index i. */
  lemma {:induction false} SurvivorIsLast<T>(xs: seq<T>, key: T -> string, k: string) returns (i: nat)
    requires k in LastByKey(xs, key)
    ensures i < |xs| && xs[i] == LastByKey(xs, key)[k] && key(xs[i]) == k
    ensures forall j :: i < j < |xs| ==> key(xs[j]) != k
  {
    var init, last := xs[..|xs| - 1], xs[|xs| - 1];
    assert LastByKey(xs, key) == LastByKey(init, key)[key(last) := last];
    if key(last) == k {
      i := |xs| - 1;
    } else {
      i := SurvivorIsLast(init, key, k);
      assert xs[i] == init[i];
      forall j | i < j < |xs| ensures key(xs[j]) != k {
        if j < |init| {
          assert xs[j] == init[j];
        }
      }
    }
  }

  /** The HashMap fill loop. */
  method FillMap<T(==)>(xs: seq<T>, key: T -> string) returns (unique: map<string, T>)
    ensures unique == LastByKey(xs, key)
  {
    unique := map[];
    for i := 0 to |xs|
      invariant unique == LastByKey(xs[..i], key)
    {
      assert xs[..i + 1][..i] == xs[..i];
      unique := unique[key(xs[i]) := xs[i]];
    }
    assert xs[..|xs|] == xs;
  }

  // ---------------------------------------------------------------- first record per key wins

  /** Some record of `xs` carries key `k`. */
  predicate HasKey<T, K(==)>(xs: seq<T>, key: T -> K, k: K) {
    exists i :: 0 <= i < |xs| && key(xs[i]) == k
  }

  /** No two records of `xs` carry the same key. */
  predicate DistinctKeys<T, K(==)>(xs: seq<T>, key: T -> K) {
    forall i, j :: 0 <= i < j < |xs| ==> key(xs[i]) != key(xs[j])
  }

  /** The record at index i is the first of `xs` that carries its key. */
  predicate IsFirstOfKey<T, K(==)>(xs: seq<T>, key: T -> K, i: nat)
    requires i < |xs|
  {
    !HasKey(xs[..i], key, key(xs[i]))
  }

  /** What the list-based deduplication keeps: each record in turn, unless a record already kept carries its key. */
  function FirstByKey<T, K(==)>(xs: seq<T>, key: T -> K): seq<T> {
    if xs == [] then []
    else
      var kept := FirstByKey(xs[..|xs| - 1], key);
      if HasKey(kept, key, key(xs[|xs| - 1])) then kept else kept + [xs[|xs| - 1]]
  }

  lemma HasKeyAppend<T, K>(a: seq<T>, b: seq<T>, key: T -> K, k: K)
    ensures HasKey(a + b, key, k) <==> HasKey(a, key, k) || HasKey(b, key, k)
  {
    if HasKey(a + b, key, k) {
      var i :| 0 <= i < |a + b| && key((a + b)[i]) == k;
      if i >= |a| {
        assert b[i - |a|] == (a + b)[i];
      }
    }
    if HasKey(a, key, k) {
      var i :| 0 <= i < |a| && key(a[i]) == k;
      assert (a + b)[i] == a[i];
    }
    if HasKey(b, key, k) {
      var i :| 0 <= i < |b| && key(b[i]) == k;
      assert (a + b)[|a| + i] == b[i];
    }
  }

  /** Deduplication keeps exactly the keys of its input. */
  lemma {:induction false} FirstByKeyKeys<T, K>(xs: seq<T>, key: T -> K, k: K)
    ensures HasKey(FirstByKey(xs, key), key, k) <==> HasKey(xs, key, k)
  {
    if xs != [] {
      var init, last := xs[..|xs| - 1], xs[|xs| - 1];
      var kept := FirstByKey(init, key);
      assert xs == init + [last];
      HasKeyAppend(init, [last], key, k);
      FirstByKeyKeys(init, key, k);
      if !HasKey(kept, key, key(last)) {
        HasKeyAppend(kept, [last], key, k);
      } else if key(last) == k {
        FirstByKeyKeys(init, key, key(last));
      }
    }
  }

  /** No key appears twice in the deduplicated list. */
  lemma {:induction false} FirstByKeyDistinct<T, K>(xs: seq<T>, key: T -> K)
    ensures DistinctKeys(FirstByKey(xs, key), key)
  {
    if xs != [] {
      var init, last := xs[..|xs| - 1], xs[|xs| - 1];
      var kept := FirstByKey(init, key);
      FirstByKeyDistinct(init, key);
      if !HasKey(kept, key, key(last)) {
        var r := kept + [last];
        forall i, j | 0 <= i < j < |r| ensures key(r[i]) != key(r[j]) {
          if j == |kept| {
            assert r[i] == kept[i];
          } else {
            assert r[i] == kept[i] && r[j] == kept[j];
          }
        }
      }
    }
  }

  /** The first record of each key is kept. */
  lemma {:induction false} FirstByKeyKeepsFirst<T, K>(xs: seq<T>, key: T -> K, i: nat)
    requires i < |xs| && IsFirstOfKey(xs, key, i)
    ensures xs[i] in FirstByKey(xs, key)
  {
    var init, last := xs[..|xs| - 1], xs[|xs| - 1];
    var kept := FirstByKey(init, key);
    if i < |xs| - 1 {
      assert init[..i] == xs[..i];
      FirstByKeyKeepsFirst(init, key, i);
    } else {
      assert init == xs[..i];
      FirstByKeyKeys(init, key, key(last));
    }
  }

  /**
   * The deduplicated list is the subsequence of first records: the k-th
   * record kept is the input record at idx[k], the indices increase, and
   * each one is the first of its key.
   */
  lemma {:induction false} FirstByKeyIndices<T, K>(xs: seq<T>, key: T -> K) returns (idx: seq<nat>)
    ensures |idx| == |FirstByKey(xs, key)|
    ensures forall k :: 0 <= k < |idx| ==> idx[k] < |xs| && FirstByKey(xs, key)[k] == xs[idx[k]]
    ensures forall k :: 0 <= k < |idx| ==> idx[k] < |xs| && IsFirstOfKey(xs, key, idx[k])
    ensures forall k, l :: 0 <= k < l < |idx| ==> idx[k] < idx[l]
  {
    if xs == [] {
      idx := [];
    } else {
      var init, last := xs[..|xs| - 1], xs[|xs| - 1];
      var kept := FirstByKey(init, key);
      var prev := FirstByKeyIndices(init, key);
      var out := FirstByKey(xs, key);
      forall k | 0 <= k < |prev| ensures xs[prev[k]] == init[prev[k]] && IsFirstOfKey(xs, key, prev[k]) {
        assert xs[..prev[k]] == init[..prev[k]];
      }
      if HasKey(kept, key, key(last)) {
        idx := prev;
        assert out == kept;
      } else {
        idx := prev + [|xs| - 1];
        assert out == kept + [last];
        assert xs[..|xs| - 1] == init;
        FirstByKeyKeys(init, key, key(last));
        forall k | 0 <= k < |idx| ensures idx[k] < |xs| && out[k] == xs[idx[k]] && IsFirstOfKey(xs, key, idx[k]) {
          if k < |prev| {
            assert idx[k] == prev[k] && out[k] == kept[k];
          }
        }
      }
    }
  }

  /** A list with no repeated key is left as it is. */
  lemma {:induction false} FirstByKeyOfDistinct<T, K>(xs: seq<T>, key: T -> K)
    requires DistinctKeys(xs, key)
    ensures FirstByKey(xs, key) == xs
  {
    if xs != [] {
      var init, last := xs[..|xs| - 1], xs[|xs| - 1];
      FirstByKeyOfDistinct(init, key);
      forall i | 0 <= i < |init| ensures key(init[i]) != key(last) {
        assert init[i] == xs[i];
      }
      assert xs == init + [last];
    }
  }

  /** Deduplicating twice is deduplicating once. */
  lemma FirstByKeyIdempotent<T, K>(xs: seq<T>, key: T -> K)
    ensures FirstByKey(FirstByKey(xs, key), key) == FirstByKey(xs, key)
  {
    FirstByKeyDistinct(xs, key);
    FirstByKeyOfDistinct(FirstByKey(xs, key), key);
  }

  /** The first index at or before p whose record carries the key that the record at p carries. */
  lemma {:induction false} FirstOccurrence<T, K>(xs: seq<T>, key: T -> K, p: nat) returns (f: nat)
    requires p < |xs|
    ensures f <= p && key(xs[f]) == key(xs[p]) && IsFirstOfKey(xs, key, f)
    decreases p
  {
    if HasKey(xs[..p], key, key(xs[p])) {
      var i :| 0 <= i < p && key(xs[..p][i]) == key(xs[p]);
      f := FirstOccurrence(xs, key, i);
    } else {
      f := p;
    }
  }

  /** When the first n records do not carry the key of the record at p, its first occurrence lies between n and p. */
  lemma FirstAfterPrefix<T, K>(xs: seq<T>, n: nat, key: T -> K, p: nat) returns (f: nat)
    requires n <= p < |xs| && !HasKey(xs[..n], key, key(xs[p]))
    ensures n <= f <= p && key(xs[f]) == key(xs[p]) && IsFirstOfKey(xs, key, f)
  {
    forall i | 0 <= i < n ensures key(xs[i]) != key(xs[p]) {
      assert xs[..n][i] == xs[i];
    }
    f := FirstOccurrence(xs, key, p);
  }

  /** In a list with no repeated key, a key identifies its record. */
  lemma DistinctKeysSame<T, K>(xs: seq<T>, key: T -> K, x: T, y: T)
    requires DistinctKeys(xs, key) && x in xs && y in xs && key(x) == key(y)
    ensures x == y
  {
    var a :| 0 <= a < |xs| && xs[a] == x;
    var b :| 0 <= b < |xs| && xs[b] == y;
    assert a == b;
  }

  /**
   * A list that begins with a + b + c, where no record of a carries the key
   * of h and h is in b: the first record carrying that key lies in b.
   */
  lemma FirstInBlock<T, K>(xs: seq<T>, a: seq<T>, b: seq<T>, c: seq<T>, key: T -> K, h: T) returns (f: nat)
    requires |a + b + c| <= |xs| && xs[..|a + b + c|] == a + b + c
    requires h in b && !HasKey(a, key, key(h))
    ensures |a| <= f < |a| + |b| && xs[f] == b[f - |a|] && xs[f] in b
    ensures key(xs[f]) == key(h) && IsFirstOfKey(xs, key, f)
  {
    var p :| 0 <= p < |b| && b[p] == h;
    assert xs[|a| + p] == (a + b + c)[|a| + p] == h;
    assert xs[..|a|] == (a + b + c)[..|a|] == a;
    f := FirstAfterPrefix(xs, |a|, key, |a| + p);
    assert xs[f] == (a + b + c)[f] == b[f - |a|];
  }
}
