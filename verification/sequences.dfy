/**
 Reference definitions of what the operations of a collection compute over
 its ordered list of items, and the laws they obey. The class in module
 Collections is proved against these functions.
 */
module Sequences {

  /** The items of `s` that satisfy `p`, in their original relative order. */
  function Filtered<T>(s: seq<T>, p: T -> bool): (r: seq<T>)
    ensures |r| <= |s|
    ensures forall i :: 0 <= i < |r| ==> p(r[i])
  {
    if s == [] then []
    else (if p(s[0]) then [s[0]] else []) + Filtered(s[1..], p)
  }

  /** `f` applied to every item of `s`, position by position. */
  function Mapped<T, U>(s: seq<T>, f: T -> U): (r: seq<U>)
    ensures |r| == |s|
    ensures forall i :: 0 <= i < |s| ==> r[i] == f(s[i])
  {
    if s == [] then [] else [f(s[0])] + Mapped(s[1..], f)
  }

  /** Some item of `s` satisfies `p`; false for the empty sequence. */
  predicate AnyOf<T>(s: seq<T>, p: T -> bool)
    ensures AnyOf(s, p) <==> exists i :: 0 <= i < |s| && p(s[i])
  {
    s != [] && (p(s[0]) || AnyOf(s[1..], p))
  }

  /** Every item of `s` satisfies `p`; true for the empty sequence. */
  predicate AllOf<T>(s: seq<T>, p: T -> bool)
    ensures AllOf(s, p) <==> forall i :: 0 <= i < |s| ==> p(s[i])
  {
    s == [] || (p(s[0]) && AllOf(s[1..], p))
  }

  /**
   Left fold: the accumulator starts at `init` and each item, first to last,
   is combined into it with `f`.
   */
  function FoldLeft<A, T>(f: (A, T) -> A, init: A, s: seq<T>): A
  {
    if s == [] then init else f(FoldLeft(f, init, s[..|s| - 1]), s[|s| - 1])
  }

  /** Sum of `f` over the items of `s`; 0 for the empty sequence. */
  function SumBy<T>(s: seq<T>, f: T -> int): int
  {
    if s == [] then 0 else f(s[0]) + SumBy(s[1..], f)
  }

  // ---------------------------------------------------------------- filter

  /** Filtering `[x] + s` keeps `x` in front exactly when it satisfies `p`. */
  lemma FilteredCons<T>(x: T, s: seq<T>, p: T -> bool)
    ensures Filtered([x] + s, p) == (if p(x) then [x] else []) + Filtered(s, p)
  {
    assert ([x] + s)[1..] == s;
  }

  /** Filtering distributes over concatenation: the relative order of the kept items is preserved. */
  lemma {:induction false} FilteredConcat<T>(s: seq<T>, t: seq<T>, p: T -> bool)
    ensures Filtered(s + t, p) == Filtered(s, p) + Filtered(t, p)
  {
    if s == [] {
      assert s + t == t;
    } else {
      assert (s + t)[1..] == s[1..] + t;
      FilteredConcat(s[1..], t, p);
    }
  }

  /** Each value occurs in the result exactly as often as in `s` if it satisfies `p`, and never otherwise. */
  lemma {:induction false} FilteredMultiplicity<T>(s: seq<T>, p: T -> bool, x: T)
    ensures multiset(Filtered(s, p))[x] == if p(x) then multiset(s)[x] else 0
  {
    if s != [] {
      FilteredMultiplicity(s[1..], p, x);
      assert s == [s[0]] + s[1..];
      assert multiset(s) == multiset([s[0]]) + multiset(s[1..]);
    }
  }

  /** A value is in the result if and only if it is in `s` and satisfies `p`. */
  lemma FilteredMembership<T>(s: seq<T>, p: T -> bool, x: T)
    ensures x in Filtered(s, p) <==> x in s && p(x)
  {
    FilteredMultiplicity(s, p, x);
    assert x in Filtered(s, p) <==> multiset(Filtered(s, p))[x] > 0;
    assert x in s <==> multiset(s)[x] > 0;
  }

  /** Filtering keeps everything exactly when every item satisfies `p`. */
  lemma {:induction false} FilteredKeepsAll<T>(s: seq<T>, p: T -> bool)
    ensures Filtered(s, p) == s <==> AllOf(s, p)
  {
    if s != [] {
      FilteredKeepsAll(s[1..], p);
      if !p(s[0]) {
        assert |Filtered(s, p)| <= |s[1..]| < |s|;
      }
    }
  }

  // ------------------------------------------------------------------- map

  /** Mapping distributes over concatenation. */
  lemma MappedConcat<T, U>(s: seq<T>, t: seq<T>, f: T -> U)
    ensures Mapped(s + t, f) == Mapped(s, f) + Mapped(t, f)
  {
  }

  // --------------------------------------------------------------- any/all

  /** De Morgan duality: some item satisfies `p` iff not every item fails it. */
  lemma {:induction false} AnyAllDuality<T>(s: seq<T>, p: T -> bool)
    ensures AnyOf(s, p) == !AllOf(s, x => !p(x))
  {
    if s != [] {
      AnyAllDuality(s[1..], p);
    }
  }

  // ------------------------------------------------------------------ fold

  /** Folding over `s + [x]` combines `x` into the fold over `s`. */
  lemma FoldLeftSnoc<A, T>(f: (A, T) -> A, init: A, s: seq<T>, x: T)
    ensures FoldLeft(f, init, s + [x]) == f(FoldLeft(f, init, s), x)
  {
    assert (s + [x])[..|s|] == s;
  }

  /** Unfolding the fold from the front: the first item is combined into the initial accumulator. */
  lemma {:induction false} FoldLeftCons<A, T>(f: (A, T) -> A, init: A, x: T, s: seq<T>)
    ensures FoldLeft(f, init, [x] + s) == FoldLeft(f, f(init, x), s)
    decreases |s|
  {
    if s == [] {
      assert ([x] + s)[..0] == [];
    } else {
      var s' := s[..|s| - 1];
      assert ([x] + s)[..|[x] + s| - 1] == [x] + s';
      FoldLeftCons(f, init, x, s');
    }
  }

  /** Folding with "append the item" from the empty sequence rebuilds the sequence. */
  lemma {:induction false} FoldLeftAppendIdentity<T>(s: seq<T>)
    ensures FoldLeft(Append, [], s) == s
  {
    if s != [] {
      var s', x := s[..|s| - 1], s[|s| - 1];
      FoldLeftAppendIdentity(s');
      calc {
        FoldLeft(Append, [], s);
        Append(FoldLeft(Append, [], s'), x);
        Append(s', x);
        s;
      }
    }
  }

  /** The combining step that appends one item to an accumulated sequence. */
  function Append<T>(acc: seq<T>, x: T): seq<T> { acc + [x] }

  // ------------------------------------------------------------------- sum

  /** Summing over an extended sequence adds the projection of the new item. */
  lemma {:induction false} SumBySnoc<T>(s: seq<T>, x: T, f: T -> int)
    ensures SumBy(s + [x], f) == SumBy(s, f) + f(x)
  {
    if s == [] {
      assert [] + [x] == [x];
    } else {
      assert (s + [x])[1..] == s[1..] + [x];
      SumBySnoc(s[1..], x, f);
    }
  }

  /** The sum is the left fold of `acc + f(x)` starting from 0. */
  lemma {:induction false} SumByIsFold<T>(s: seq<T>, f: T -> int)
    ensures SumBy(s, f) == FoldLeft((acc: int, x: T) => acc + f(x), 0, s)
  {
    if s != [] {
      var s' := s[..|s| - 1];
      SumByIsFold(s', f);
      SumBySnoc(s', s[|s| - 1], f);
      assert s' + [s[|s| - 1]] == s;
    }
  }

  /** The sum over a concatenation is the sum of the two sums. */
  lemma {:induction false} SumByConcat<T>(s: seq<T>, t: seq<T>, f: T -> int)
    ensures SumBy(s + t, f) == SumBy(s, f) + SumBy(t, f)
  {
    if s == [] {
      assert s + t == t;
    } else {
      assert (s + t)[1..] == s[1..] + t;
      SumByConcat(s[1..], t, f);
    }
  }
}
