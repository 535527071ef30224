/**
 Clients of Collection that derive, from the contracts alone, the
 concrete outcomes the project's unit tests expect for the collection
 [1, 2, 3, 4, 5] and for the empty collection.
 */
module Scenarios {
  import opened Sequences
  import opened Collections

  function Identity(x: int): int { x }

  function Plus(acc: int, x: int): int { acc + x }

  function IsEven(x: int): bool { x % 2 == 0 }

  function Double(x: int): int { x * 2 }

  /** The sum of 1..5 by the identity projection. */
  lemma SumOneToFive()
    ensures SumBy([1, 2, 3, 4, 5], Identity) == 15
  {
    var s := [1, 2, 3, 4, 5];
    assert s[1..] == [2, 3, 4, 5];
    assert s[1..][1..] == [3, 4, 5];
    assert s[1..][1..][1..] == [4, 5];
    assert s[1..][1..][1..][1..] == [5];
    assert SumBy([5], Identity) == 5;
  }

  /** reduce with `+` and 0 over 1..5 gives 15. */
  lemma ReduceAddOneToFive()
    ensures FoldLeft(Plus, 0, [1, 2, 3, 4, 5]) == 15
  {
    FoldLeftSnoc(Plus, 0, [], 1);
    FoldLeftSnoc(Plus, 0, [1], 2);
    FoldLeftSnoc(Plus, 0, [1, 2], 3);
    FoldLeftSnoc(Plus, 0, [1, 2, 3], 4);
    FoldLeftSnoc(Plus, 0, [1, 2, 3, 4], 5);
    assert [] + [1] == [1];
    assert [1] + [2] == [1, 2];
    assert [1, 2] + [3] == [1, 2, 3];
    assert [1, 2, 3] + [4] == [1, 2, 3, 4];
    assert [1, 2, 3, 4] + [5] == [1, 2, 3, 4, 5];
  }

  /** Keeping the even items of 1..5 gives [2, 4]. */
  lemma EvensOfOneToFive()
    ensures Filtered([1, 2, 3, 4, 5], IsEven) == [2, 4]
  {
    FilteredCons(5, [], IsEven);
    FilteredCons(4, [5], IsEven);
    FilteredCons(3, [4, 5], IsEven);
    FilteredCons(2, [3, 4, 5], IsEven);
    FilteredCons(1, [2, 3, 4, 5], IsEven);
    assert [5] == [5] + [];
    assert [4, 5] == [4] + [5];
    assert [3, 4, 5] == [3] + [4, 5];
    assert [2, 3, 4, 5] == [2] + [3, 4, 5];
    assert [1, 2, 3, 4, 5] == [1] + [2, 3, 4, 5];
  }

  method QueriesFromTests() {
    var c := new Collection([1, 2, 3, 4, 5]);
    assert c.Count() == 5;
    assert c.First() == Some(1);
    assert c.Last() == Some(5);
    assert c.ToArray() == [1, 2, 3, 4, 5];

    var total := c.Sum(Identity);
    SumOneToFive();
    assert total == 15;

    var mean := c.Avg(Identity);
    assert mean == Ok(3.0);

    var reduced := c.Reduce(Plus, 0);
    ReduceAddOneToFive();
    assert reduced == 15;

    var has3 := c.Any(x => x == 3);
    assert c.ToArray()[2] == 3;
    assert has3;
    var positive := c.All(x => x > 0);
    assert positive;

    // A world that logs each call's argument sees every item once, in order.
    var visited := c.Each(Append, []);
    FoldLeftAppendIdentity(c.ToArray());
    assert visited == [1, 2, 3, 4, 5];
  }

  method TransformsFromTests() {
    var c := new Collection([1, 2, 3, 4, 5]);
    var evens := c.Filter(IsEven);
    EvensOfOneToFive();
    assert evens.ToArray() == [2, 4];

    var doubled := c.Map(Double);
    assert doubled.ToArray() == [2, 4, 6, 8, 10];
    assert c.ToArray() == [1, 2, 3, 4, 5];

    c.Push(6);
    assert c.ToArray() == [1, 2, 3, 4, 5, 6];
  }

  method EmptyFromTests() {
    var e := new Collection<int>();
    assert e.ToArray() == [];
    assert e.First() == None && e.Last() == None && e.Count() == 0;
    var none := e.Filter(IsEven);
    assert none.ToArray() == [];
    var noneMapped := e.Map(Double);
    assert noneMapped.ToArray() == [];
    var emptySum := e.Sum(Identity);
    assert emptySum == 0;
    var emptyMean := e.Avg(Identity);
    assert emptyMean == Err(DivisionByZero);
    e.Push(6);
    assert e.ToArray() == [6];
  }
}
