/** Sequence vocabulary shared by the client and the worker models:
    distinctness, order-preserving de-duplication and first occurrence. */
module Seqs {

  /** No element occurs twice. */
  ghost predicate Distinct<T>(xs: seq<T>) {
    forall i, j :: 0 <= i < j < |xs| ==> xs[i] != xs[j]
  }

  /** The elements of `xs` in order of first occurrence, each once: a value is
      kept the first time it is seen and skipped every later time. */
  function Dedup<T(==)>(xs: seq<T>): seq<T>
    decreases |xs|
  {
    if xs == [] then []
    else
      var d := Dedup(xs[..|xs| - 1]);
      if xs[|xs| - 1] in d then d else d + [xs[|xs| - 1]]
  }

  /** Dedup of a sequence extended by one value. */
  lemma DedupSnoc<T>(xs: seq<T>, x: T)
    ensures Dedup(xs + [x]) == if x in Dedup(xs) then Dedup(xs) else Dedup(xs) + [x]
  {
    assert (xs + [x])[..|xs|] == xs;
  }

  /** Splitting the last element off a concatenation. */
  lemma SnocAppend<T>(a: seq<T>, b: seq<T>)
    requires b != []
    ensures (a + b)[..|a + b| - 1] == a + b[..|b| - 1]
    ensures (a + b)[|a + b| - 1] == b[|b| - 1]
  {
  }

  /** The position of the first occurrence of `x` in `xs`. */
  function FirstIndex<T(==)>(xs: seq<T>, x: T): (r: nat)
    requires x in xs
    ensures r < |xs|
    ensures r < |xs| ==> xs[r] == x && x !in xs[..r]
    decreases |xs|
  {
    if x in xs[..|xs| - 1] then FirstIndex(xs[..|xs| - 1], x) else |xs| - 1
  }

  /** Dedup keeps exactly the values of its input. */
  lemma {:induction false} DedupMembers<T>(xs: seq<T>)
    ensures forall x :: x in Dedup(xs) <==> x in xs
    decreases |xs|
  {
    if xs != [] {
      var p := xs[..|xs| - 1];
      DedupMembers(p);
      assert xs == p + [xs[|xs| - 1]];
    }
  }

  /** Dedup never repeats a value. */
  lemma {:induction false} DedupDistinct<T>(xs: seq<T>)
    ensures Distinct(Dedup(xs))
    decreases |xs|
  {
    if xs != [] {
      DedupDistinct(xs[..|xs| - 1]);
    }
  }

  /** Appending never moves the first occurrence of a value already present. */
  lemma FirstIndexSnoc<T>(xs: seq<T>, x: T, y: T)
    requires y in xs
    ensures FirstIndex(xs + [x], y) == FirstIndex(xs, y)
  {
    assert (xs + [x])[..|xs|] == xs;
  }

  /** `d` lists values of `xs` in the order of their first occurrence in `xs`. */
  ghost predicate InFirstOccurrenceOrder<T>(xs: seq<T>, d: seq<T>) {
    && (forall x :: x in d ==> x in xs)
    && (forall i, j :: 0 <= i < j < |d| ==> FirstIndex(xs, d[i]) < FirstIndex(xs, d[j]))
  }

  /** Extending the input by one value keeps the order, whether or not the
      value is new. */
  lemma OrderSnoc<T>(p: seq<T>, last: T, dp: seq<T>)
    requires forall x :: x in dp <==> x in p
    requires InFirstOccurrenceOrder(p, dp)
    ensures InFirstOccurrenceOrder(p + [last], if last in dp then dp else dp + [last])
  {
    var xs := p + [last];
    var d := if last in dp then dp else dp + [last];
    forall i, j | 0 <= i < j < |d| ensures FirstIndex(xs, d[i]) < FirstIndex(xs, d[j]) {
      assert d[i] == dp[i];
      FirstIndexSnoc(p, last, dp[i]);
      if j < |dp| {
        assert d[j] == dp[j];
        FirstIndexSnoc(p, last, dp[j]);
      } else {
        assert (xs)[..|p|] == p;
      }
    }
  }

  /** Dedup lists the values in the order in which they first occur. */
  lemma {:induction false} DedupOrder<T>(xs: seq<T>)
    ensures InFirstOccurrenceOrder(xs, Dedup(xs))
    decreases |xs|
  {
    if xs != [] {
      var p := xs[..|xs| - 1];
      DedupOrder(p);
      DedupMembers(p);
      OrderSnoc(p, xs[|xs| - 1], Dedup(p));
      assert xs == p + [xs[|xs| - 1]];
    }
  }

  /** The three properties that describe Dedup, in one place: no repeats,
      the same values as the input, and the input's first-occurrence order. */
  lemma DedupCharacterised<T>(xs: seq<T>)
    ensures Distinct(Dedup(xs))
    ensures forall x :: x in Dedup(xs) <==> x in xs
    ensures InFirstOccurrenceOrder(xs, Dedup(xs))
  {
    DedupDistinct(xs);
    DedupMembers(xs);
    DedupOrder(xs);
  }

  /** De-duplicating a sequence that has no repeats changes nothing. */
  lemma {:induction false} DedupOfDistinct<T>(xs: seq<T>)
    requires Distinct(xs)
    ensures Dedup(xs) == xs
    decreases |xs|
  {
    if xs != [] {
      var p := xs[..|xs| - 1];
      assert Distinct(p);
      DedupOfDistinct(p);
      assert xs[|xs| - 1] !in p;
      assert xs == p + [xs[|xs| - 1]];
    }
  }

  /** The length of Dedup is at most the length of its input. */
  lemma {:induction false} DedupShorter<T>(xs: seq<T>)
    ensures |Dedup(xs)| <= |xs|
    decreases |xs|
  {
    if xs != [] {
      DedupShorter(xs[..|xs| - 1]);
    }
  }
}
