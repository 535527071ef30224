/**
 A generic collection: an object that owns an ordered list of items and
 offers functional-style helpers over it. `Push` changes the list in place;
 `Filter` and `Map` build a new collection and leave the receiver alone;
 the queries walk the items first to last.
 */
module Collections {
  import opened Sequences

  datatype Option<T> = None | Some(value: T)

  /** The only failure an operation of the collection reports. */
  datatype Error = DivisionByZero

  datatype Result<T> = Ok(value: T) | Err(error: Error)

  class Collection<T> {
    /** The items, densely indexed from 0 in insertion order. */
    var items: seq<T>

    constructor (items: seq<T> := [])
      ensures this.items == items
    {
      this.items := items;
    }

    /** Appends `item` at the end, in place. */
    method Push(item: T)
      modifies this
      ensures items == old(items) + [item]
      ensures Count() == old(Count()) + 1
      ensures Last() == Some(item)
      ensures old(items) != [] ==> First() == old(First())
    {
      items := items + [item];
    }

    /** A new collection of the items satisfying `p`, re-indexed from 0. */
    method Filter(p: T -> bool) returns (c: Collection<T>)
      ensures fresh(c)
      ensures c.items == Filtered(items, p)
    {
      c := new Collection(Filtered(items, p));
    }

    /** A new collection holding `f` of each item, in the same positions. */
    method Map<U>(f: T -> U) returns (c: Collection<U>)
      ensures fresh(c)
      ensures c.items == Mapped(items, f)
    {
      c := new Collection(Mapped(items, f));
    }

    /** Whether some item satisfies `p`; stops at the first that does. */
    method Any(p: T -> bool) returns (found: bool)
      ensures found == AnyOf(items, p)
    {
      for i := 0 to |items|
        invariant forall j :: 0 <= j < i ==> !p(items[j])
      {
        if p(items[i]) {
          return true;
        }
      }
      return false;
    }

    /** Whether every item satisfies `p`; stops at the first that does not. */
    method All(p: T -> bool) returns (holds: bool)
      ensures holds == AllOf(items, p)
    {
      for i := 0 to |items|
        invariant forall j :: 0 <= j < i ==> p(items[j])
      {
        if !p(items[i]) {
          return false;
        }
      }
      return true;
    }

    /**
     Calls `callback` once per item, first to last, for its effect only. The
     effect is modelled as a world state `S` that each call receives and
     updates, so the world after the walk fixes both the number and the
     order of the calls.
     */
    method Each<S>(callback: (S, T) -> S, world: S) returns (world': S)
      ensures world' == FoldLeft(callback, world, items)
    {
      world' := world;
      for i := 0 to |items|
        invariant world' == FoldLeft(callback, world, items[..i])
      {
        FoldLeftSnoc(callback, world, items[..i], items[i]);
        assert items[..i + 1] == items[..i] + [items[i]];
        world' := callback(world', items[i]);
      }
      assert items[..|items|] == items;
    }

    /** Threads an accumulator, starting at `initial`, through `f` over the items. */
    method Reduce<A>(f: (A, T) -> A, initial: A) returns (accumulator: A)
      ensures accumulator == FoldLeft(f, initial, items)
    {
      accumulator := initial;
      for i := 0 to |items|
        invariant accumulator == FoldLeft(f, initial, items[..i])
      {
        FoldLeftSnoc(f, initial, items[..i], items[i]);
        assert items[..i + 1] == items[..i] + [items[i]];
        accumulator := f(accumulator, items[i]);
      }
      assert items[..|items|] == items;
    }

    /** The first item, or `None` for an empty collection. */
    function First(): (r: Option<T>)
      reads this
      ensures r.Some? <==> |items| > 0
      ensures r.Some? ==> r.value == items[0]
    {
      if |items| == 0 then None else Some(items[0])
    }

    /** The last item, or `None` for an empty collection. */
    function Last(): (r: Option<T>)
      reads this
      ensures r.Some? <==> |items| > 0
      ensures r.Some? ==> r.value == items[|items| - 1]
    {
      if |items| == 0 then None else Some(items[|items| - 1])
    }

    /**
     The mean of `f` over the items. An empty collection divides by a zero
     count, which fails with `DivisionByZero`.
     */
    method Avg(f: T -> int) returns (r: Result<real>)
      ensures r.Err? <==> |items| == 0
      ensures r.Err? ==> r.error == DivisionByZero
      ensures r.Ok? ==> r.value * (Count() as real) == SumBy(items, f) as real
      ensures r.Ok? && SumBy(items, f) % Count() == 0 ==> r.value == (SumBy(items, f) / Count()) as real
    {
      var total, count := 0, 0;
      for i := 0 to |items|
        invariant count == i
        invariant total == SumBy(items[..i], f)
      {
        SumBySnoc(items[..i], items[i], f);
        assert items[..i + 1] == items[..i] + [items[i]];
        total := total + f(items[i]);
        count := count + 1;
      }
      assert items[..|items|] == items;
      if count == 0 {
        return Err(DivisionByZero);
      }
      r := Ok(total as real / count as real);
      if total % count == 0 {
        assert total == (total / count) * count;
      }
    }

    /** The sum of `f` over the items; 0 for an empty collection. */
    method Sum(f: T -> int) returns (total: int)
      ensures total == SumBy(items, f)
      ensures total == FoldLeft((acc: int, x: T) => acc + f(x), 0, items)
    {
      total := 0;
      for i := 0 to |items|
        invariant total + SumBy(items[i..], f) == SumBy(items, f)
      {
        assert items[i..][1..] == items[i + 1..];
        total := total + f(items[i]);
      }
      SumByIsFold(items, f);
    }

    /** The number of items: the length of `ToArray()`. */
    function Count(): (n: nat)
      reads this
      ensures n == |ToArray()|
    {
      |items|
    }

    /** The items as a value: later pushes to the collection do not reach it. */
    function ToArray(): (r: seq<T>)
      reads this
      ensures r == items
    {
      items
    }
  }
}
