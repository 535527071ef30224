# Collection — a Dafny model

`askonomm/collection` is a PHP library with a single class, `Collection`. It
wraps an ordered list of items and offers fluent helpers over it:

- `push` appends an item in place;
- `filter` and `map` build a new collection and leave the receiver unchanged;
- `any`, `all`, `each`, `reduce`, `avg` and `sum` walk the items first to last;
- `first`, `last`, `count` and `toArray` are accessors.

This project models that class in Dafny and proves what each operation computes.

- `sequences.dfy` (module `Sequences`) holds the reference definitions over `seq<T>`:
  - `Filtered`, `Mapped`, `AnyOf`, `AllOf`: defined by recursion on the head of the sequence;
  - `FoldLeft`: recursion on the last item, the shape of "reduce over `s + [x]`";
  - `SumBy`: recursion on the head, an independent reference definition for `sum`.

  It also holds the laws these functions obey: order preservation, membership and multiplicity for filtering, De Morgan duality of any/all, the fold laws, and sum as a fold.
- `collection.dfy` (module `Collections`) holds `class Collection<T>` with one field, `items: seq<T>`:
  - `Push` has `modifies this` and states the new list outright.
  - `Filter` and `Map` return a fresh object whose items are `Filtered`/`Mapped` of the receiver's. They have no `modifies` clause, so the receiver is unchanged.
  - `Any`, `All`, `Each`, `Reduce`, `Avg` and `Sum` are `for` loops with early exits and accumulators, as in the PHP `foreach` loops.
    - `Any`, `All`, `Reduce` and `Sum` are proved equal to their reference functions.
    - `Each` threads a world state through the callback. It is proved to leave the world that `FoldLeft` of the callback gives, which fixes the number and order of the calls.
    - `Avg` is stated relationally: it fails exactly on an empty collection, and otherwise mean × count equals `SumBy`.
  - `First`, `Last`, `Count` and `ToArray` are functions that read the object.
- `scenarios.dfy` (module `Scenarios`) is a client that derives, from the contracts alone, the outcomes that `tests/CollectionTest.php` expects.

PHP callables become Dafny arrows: `T -> bool` for predicates, `T -> U` for `map`, `(A, T) -> A` for `reduce`, `(S, T) -> S` for `each` (the callback's effect on a world state `S`), and `T -> int` for the numeric projections of `avg` and `sum`. `Crell\fp\pipe` in `filter` and `map` is plain composition, so those methods build `new Collection(Filtered(items, p))` and `new Collection(Mapped(items, f))` directly.

On an empty collection, `avg` divides by a zero count; PHP 8 then throws `DivisionByZeroError`. The model returns `Err(DivisionByZero)` for that case instead of excluding it with a precondition. `first` and `last` return PHP `null` for an empty collection; the model returns `None` of an `Option`.

## Model

| member | source | states |
|---|---|---|
| `Collections.Collection.constructor` | src/Collection.php:26-29 | the new collection holds exactly the given list; with no argument it is empty |
| `Collections.Collection.Push` | src/Collection.php:35-38 | the items become the old items followed by the pushed item. So the count grows by one, the pushed item is last, and a non-empty collection keeps its first item. This holds for an empty receiver too |
| `Collections.Collection.Filter` | src/Collection.php:44-52 | returns a fresh collection whose items are `Filtered(items, p)`; the receiver is not modified |
| `Collections.Collection.Map` | src/Collection.php:58-65 | returns a fresh collection whose items are `Mapped(items, f)`; the receiver is not modified |
| `Collections.Collection.Any` | src/Collection.php:71-80 | the early-exit loop returns true exactly when `AnyOf(items, p)` holds, i.e. some item satisfies `p` (false when empty) |
| `Collections.Collection.All` | src/Collection.php:86-95 | the early-exit loop returns true exactly when `AllOf(items, p)` holds, i.e. every item satisfies `p` (true when empty) |
| `Collections.Collection.Each` | src/Collection.php:102-107 | the callback is called once per item, first to last: each call receives the world left by the previous call and the next item, so the final world is the left fold `FoldLeft(callback, world, items)` |
| `Collections.Collection.Reduce` | src/Collection.php:114-123 | the accumulator loop returns the left fold `FoldLeft(f, initial, items)` |
| `Collections.Collection.First` | src/Collection.php:130-137 | a value is present exactly when the collection is non-empty, and it is then item 0 |
| `Collections.Collection.Last` | src/Collection.php:144-151 | a value is present exactly when the collection is non-empty, and it is then item count - 1 |
| `Collections.Collection.Avg` | src/Collection.php:159-170 | fails with DivisionByZero exactly when the collection is empty. Otherwise: mean * count == sum of the projections, and the mean is that integer when count divides the sum |
| `Collections.Collection.Sum` | src/Collection.php:172-181 | the total equals `SumBy(items, f)` (0 when empty) and equals the left fold of `acc + f(x)` from 0 |
| `Collections.Collection.Count` | src/Collection.php:188-191 | the count is the length of `ToArray()` |
| `Collections.Collection.ToArray` | src/Collection.php:198-201 | returns the items, in order, as a value |
| `Sequences.Filtered` | src/Collection.php:44-52 | the result is no longer than the input and every item in it satisfies the predicate |
| `Sequences.FilteredCons` | src/Collection.php:48-49 | filtering `[x] + s` puts `x` in front of the filtered rest exactly when `x` satisfies the predicate |
| `Sequences.FilteredConcat` | src/Collection.php:48-49 | filtering distributes over concatenation: the kept items keep their original relative order |
| `Sequences.FilteredMultiplicity` | src/Collection.php:48 | each value occurs in the result as often as in the input if it satisfies the predicate, and never otherwise |
| `Sequences.FilteredMembership` | src/Collection.php:48 | a value is in the result if and only if it is in the input and satisfies the predicate |
| `Sequences.FilteredKeepsAll` | src/Collection.php:48 | filtering returns the input unchanged if and only if every item satisfies the predicate |
| `Sequences.Mapped` | src/Collection.php:62 | the result has the input's length and its item i is `f` of input item i |
| `Sequences.MappedConcat` | src/Collection.php:62 | mapping distributes over concatenation |
| `Sequences.AnyOf` | src/Collection.php:71-80 | true if and only if some position holds an item satisfying the predicate |
| `Sequences.AllOf` | src/Collection.php:86-95 | true if and only if every position holds an item satisfying the predicate |
| `Sequences.AnyAllDuality` | src/Collection.php:71-95 | any(p) is the negation of all(not p), the empty sequence included |
| `Sequences.FoldLeftSnoc` | src/Collection.php:116-122 | reducing `s + [x]` is `f` applied to the reduction of `s` and `x` |
| `Sequences.FoldLeftCons` | src/Collection.php:116-122 | reducing `[x] + s` from `init` is reducing `s` from `f(init, x)`: the first item is combined first |
| `Sequences.FoldLeftAppendIdentity` | src/Collection.php:114-123 | reducing with "append the item" from the empty list rebuilds the list |
| `Sequences.SumBySnoc` | src/Collection.php:176-178 | adding an item adds its projection to the sum |
| `Sequences.SumByIsFold` | src/Collection.php:172-181 | the sum is the reduction with `acc + f(x)` starting from 0 |
| `Sequences.SumByConcat` | src/Collection.php:172-181 | the sum over a concatenation is the sum of the two sums |
| `Scenarios.SumOneToFive` | tests/CollectionTest.php:57-62 | the sum of 1..5 under the identity projection is 15 |
| `Scenarios.ReduceAddOneToFive` | tests/CollectionTest.php:105-112 | reducing 1..5 with `+` from 0 gives 15 |
| `Scenarios.EvensOfOneToFive` | tests/CollectionTest.php:18-25 | keeping the even items of 1..5 gives [2, 4] |

## Left out

- `Crell\fp\pipe` (src/Collection.php:7) is a library function outside this repository. It is modelled as plain function composition.
- Collections.Collection.Avg: the PHP result is `int|float`. The model returns the exact quotient as a `real`. Floating-point rounding of a non-integral mean is not modelled. Projections are unbounded `int`s: the PHPDoc's `float` projection (`callable(T): float`) and the overflow of the `int` total into a `float` are not modelled.
- Collections.Collection.Sum: projections are unbounded `int`s. PHP's `float` projections and its overflow of `int` sums into `float` are not modelled.
- Collections.Collection.Map: the PHP annotation types the callback `T -> T`. The model allows any result type `U`; same-type use is the special case `U == T`.
- Collections.Collection.Each: the callback's side effects are modelled only as an update of an abstract world state. What the effects are is outside the model.
- Collections.Collection.First and Collections.Collection.Last: PHP returns `null` for an empty collection. A caller cannot tell that `null` from a stored `null` item, but the model's `None` is distinct from every item.
- The constructor accepts any PHP array. The model takes a dense list (`seq`), because `first` and `last` index `0` and `count - 1` directly. Arrays with string keys or gaps are not modelled.
- Exceptions thrown by user callbacks propagate unchanged in PHP. In the model, callbacks are total and pure functions. So, except through `Each`'s world state, the number and order of callback calls are not observable. This covers the early exits of `any` and `all` and the calls made by `filter`, `map` and `reduce`.
- Late static binding (`new static`) and the `\Countable` interface are treated as the one class `Collection`.
