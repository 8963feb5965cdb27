/** Generic facts about the ways the scanners build their result lists:
    what each line index contributes, kept in index order, and one record
    per regex match, in match order. */
module Gather {
  import opened Wrappers

  /** The present values among f(0), f(1), …, f(n - 1), in index order. */
  function Somes<T>(n: nat, f: nat -> Option<T>): seq<T> {
    if n == 0 then [] else Somes(n - 1, f) + OptionToSeq(f(n - 1))
  }

  /** Every value kept comes from one of the indices. */
  lemma {:induction false} SomesSound<T>(n: nat, f: nat -> Option<T>, x: T)
    requires x in Somes(n, f)
    ensures exists i :: 0 <= i < n && f(i) == Some(x)
  {
    assert Somes(n, f) == Somes(n - 1, f) + OptionToSeq(f(n - 1));
    if x in Somes(n - 1, f) {
      SomesSound(n - 1, f, x);
    } else {
      InOptionToSeq(f(n - 1), x);
    }
  }

  /** Every present value is kept. */
  lemma {:induction false} SomesComplete<T>(n: nat, f: nat -> Option<T>, i: nat)
    requires i < n && f(i).Some?
    ensures f(i).value in Somes(n, f)
  {
    assert Somes(n, f) == Somes(n - 1, f) + OptionToSeq(f(n - 1));
    if i < n - 1 {
      SomesComplete(n - 1, f, i);
    }
  }

  /** For each index in turn, the value of f and then the value of g, where present. */
  function Somes2<T>(n: nat, f: nat -> Option<T>, g: nat -> Option<T>): seq<T> {
    if n == 0 then [] else Somes2(n - 1, f, g) + OptionToSeq(f(n - 1)) + OptionToSeq(g(n - 1))
  }

  /** Every value kept comes from f or g at one of the indices. */
  lemma {:induction false} Somes2Sound<T>(n: nat, f: nat -> Option<T>, g: nat -> Option<T>, x: T)
    requires x in Somes2(n, f, g)
    ensures exists i :: 0 <= i < n && (f(i) == Some(x) || g(i) == Some(x))
  {
    var init := Somes2(n - 1, f, g);
    assert Somes2(n, f, g) == init + OptionToSeq(f(n - 1)) + OptionToSeq(g(n - 1));
    if x in init {
      Somes2Sound(n - 1, f, g, x);
    } else if x in OptionToSeq(f(n - 1)) {
      InOptionToSeq(f(n - 1), x);
    } else {
      InOptionToSeq(g(n - 1), x);
    }
  }

  /** Every present value of f and of g is kept. */
  lemma {:induction false} Somes2Complete<T>(n: nat, f: nat -> Option<T>, g: nat -> Option<T>, i: nat)
    requires i < n
    ensures f(i).Some? ==> f(i).value in Somes2(n, f, g)
    ensures g(i).Some? ==> g(i).value in Somes2(n, f, g)
  {
    var init := Somes2(n - 1, f, g);
    assert Somes2(n, f, g) == init + OptionToSeq(f(n - 1)) + OptionToSeq(g(n - 1));
    if i < n - 1 {
      Somes2Complete(n - 1, f, g, i);
    }
  }

  /** f applied to every element of s, built from the front as a loop appends. */
  function MapSeq<A, B>(s: seq<A>, f: A -> B): seq<B> {
    if s == [] then [] else MapSeq(s[..|s| - 1], f) + [f(s[|s| - 1])]
  }

  /** The k-th output comes from the k-th input, for every k. */
  lemma {:induction false} MapSeqIndex<A, B>(s: seq<A>, f: A -> B)
    ensures |MapSeq(s, f)| == |s|
    ensures forall k :: 0 <= k < |s| ==> MapSeq(s, f)[k] == f(s[k])
  {
    if s != [] {
      MapSeqIndex(s[..|s| - 1], f);
    }
  }

  /** The blocks block(0), block(1), …, block(n - 1), one after another. */
  function Concat<T>(n: nat, block: nat -> seq<T>): seq<T> {
    if n == 0 then [] else Concat(n - 1, block) + block(n - 1)
  }

  /** Every element comes from one of the blocks, block i. */
  lemma {:induction false} ConcatSound<T>(n: nat, block: nat -> seq<T>, x: T) returns (i: nat)
    requires x in Concat(n, block)
    ensures i < n && x in block(i)
  {
    if x in block(n - 1) {
      i := n - 1;
    } else {
      i := ConcatSound(n - 1, block, x);
    }
  }

  /** Every element of every block is there. */
  lemma {:induction false} ConcatComplete<T>(n: nat, block: nat -> seq<T>, i: nat, x: T)
    requires i < n && x in block(i)
    ensures x in Concat(n, block)
  {
    if i < n - 1 {
      ConcatComplete(n - 1, block, i, x);
    }
  }

  /** The concatenation of n blocks begins with that of fewer. */
  lemma {:induction false} ConcatPrefix<T>(m: nat, n: nat, block: nat -> seq<T>)
    requires m <= n
    ensures |Concat(m, block)| <= |Concat(n, block)| && Concat(n, block)[..|Concat(m, block)|] == Concat(m, block)
    decreases n
  {
    if m < n {
      ConcatPrefix(m, n - 1, block);
      assert Concat(n, block) == Concat(n - 1, block) + block(n - 1);
    }
  }
}
