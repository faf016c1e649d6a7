/** Sequences without repetition, and the part of a sequence that lies in a set. */
module Lists {

  datatype Option<+T> = None | Some(value: T)

  ghost predicate Distinct<T>(xs: seq<T>) {
    forall i, j :: 0 <= i < j < |xs| ==> xs[i] != xs[j]
  }

  /** The elements of `xs` that are in `s`, in their order in `xs`. */
  function Keep<T(==)>(xs: seq<T>, s: set<T>): (ys: seq<T>)
    ensures |ys| <= |xs|
    ensures forall y :: y in ys ==> y in xs && y in s
    ensures forall y :: y in xs && y in s ==> y in ys
  {
    if xs == [] then []
    else
      var x, rest := xs[|xs| - 1], Keep(xs[..|xs| - 1], s);
      assert xs == xs[..|xs| - 1] + [x];
      if x in s then rest + [x] else rest
  }

  lemma {:induction false} KeepDistinct<T>(xs: seq<T>, s: set<T>)
    requires Distinct(xs)
    ensures Distinct(Keep(xs, s))
  {
    if xs != [] {
      var front := xs[..|xs| - 1];
      assert xs == front + [xs[|xs| - 1]];
      KeepDistinct(front, s);
      assert forall y :: y in Keep(front, s) ==> y in front;
    }
  }

  /** Keeping by a set and by the rest of the elements loses and repeats
      nothing. */
  lemma {:induction false} KeepPartitions<T>(xs: seq<T>, s: set<T>, t: set<T>)
    requires forall x :: x in xs ==> (x in s <==> x !in t)
    ensures multiset(Keep(xs, s)) + multiset(Keep(xs, t)) == multiset(xs)
  {
    if xs != [] {
      var front := xs[..|xs| - 1];
      assert xs == front + [xs[|xs| - 1]];
      KeepPartitions(front, s, t);
    }
  }

  lemma {:induction false} KeepEverything<T>(xs: seq<T>, s: set<T>)
    ensures (forall x :: x in xs ==> x in s) ==> Keep(xs, s) == xs
    ensures (forall x :: x in xs ==> x !in s) ==> Keep(xs, s) == []
  {
    if xs != [] {
      var front := xs[..|xs| - 1];
      assert xs == front + [xs[|xs| - 1]];
      KeepEverything(front, s);
    }
  }

  lemma DistinctAppend<T>(xs: seq<T>, ys: seq<T>)
    requires Distinct(xs) && Distinct(ys)
    requires forall x :: x in xs ==> x !in ys
    ensures Distinct(xs + ys)
  {
    forall i, j | 0 <= i < j < |xs + ys| ensures (xs + ys)[i] != (xs + ys)[j] {
      if i < |xs| && |xs| <= j {
        assert xs[i] in xs && ys[j - |xs|] in ys;
      }
    }
  }
}
