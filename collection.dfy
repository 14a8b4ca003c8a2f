/**
 * Doctrine's ArrayCollection as the entities use it: an ordered list of object
 * references, compared by identity.  `contains` is membership, `add` appends, and
 * `removeElement` searches for the first identical element, removes it and reports
 * whether it found one.
 */
module Collection {
  import opened Wrappers

  /** No element occurs twice: the invariant the guarded `add*` methods of the entities keep. */
  ghost predicate NoDuplicates<T>(xs: seq<T>) {
    forall i, j :: 0 <= i < j < |xs| ==> xs[i] != xs[j]
  }

  /** The position of the first element identical to `x` (the strict `array_search` of removeElement). */
  function IndexOf<T(==)>(xs: seq<T>, x: T): (r: Option<nat>)
    ensures r.None? <==> x !in xs
    ensures r.Some? ==> r.value < |xs| && xs[r.value] == x && x !in xs[..r.value]
  {
    if |xs| == 0 then None
    else if xs[0] == x then Some(0)
    else match IndexOf(xs[1..], x)
      case None => None
      case Some(i) =>
        assert xs[1..][..i] == xs[1..i + 1];
        assert xs[..i + 1] == [xs[0]] + xs[1..i + 1];
        Some(i + 1)
  }

  /** What `removeElement` returns (`removed`) and the collection it leaves (`rest`). */
  datatype Removal<T> = Removal(removed: bool, rest: seq<T>)

  /** `removeElement`: drop the first element identical to `x`, if there is one. */
  function RemoveElement<T(==)>(xs: seq<T>, x: T): (r: Removal<T>)
    ensures r.removed <==> x in xs
    ensures !r.removed ==> r.rest == xs
    ensures r.removed ==> |r.rest| == |xs| - 1
  {
    match IndexOf(xs, x)
    case None => Removal(false, xs)
    case Some(i) => Removal(true, xs[..i] + xs[i + 1..])
  }

  /** The guarded insertion every entity writes as `if (!contains(x)) { add(x); }`. */
  function AddIfAbsent<T(==)>(xs: seq<T>, x: T): seq<T> {
    if x in xs then xs else xs + [x]
  }

  /** A guarded insertion contains exactly the old elements and `x`, and keeps the old ones first, in order. */
  lemma AddIfAbsentMembers<T>(xs: seq<T>, x: T)
    ensures x in AddIfAbsent(xs, x)
    ensures forall y :: y in AddIfAbsent(xs, x) <==> y in xs || y == x
    ensures AddIfAbsent(xs, x)[..|xs|] == xs
  {
  }

  /** Adding twice has the effect of adding once. */
  lemma AddIfAbsentIdempotent<T>(xs: seq<T>, x: T)
    ensures AddIfAbsent(AddIfAbsent(xs, x), x) == AddIfAbsent(xs, x)
  {
  }

  /** A guarded insertion never introduces a duplicate. */
  lemma AddIfAbsentNoDuplicates<T>(xs: seq<T>, x: T)
    requires NoDuplicates(xs)
    ensures NoDuplicates(AddIfAbsent(xs, x))
  {
  }

  /** `removeElement` keeps every element other than `x`, duplicates or not. */
  lemma RemoveElementKeepsOthers<T>(xs: seq<T>, x: T)
    ensures forall y :: y != x ==> (y in RemoveElement(xs, x).rest <==> y in xs)
  {
    RemoveElementMultiset(xs, x);
    forall y | y != x ensures y in RemoveElement(xs, x).rest <==> y in xs {
      assert y in RemoveElement(xs, x).rest <==> y in multiset(RemoveElement(xs, x).rest);
      assert y in xs <==> y in multiset(xs);
    }
  }

  /**
   * On a collection without duplicates, `removeElement` removes every occurrence of `x`
   * and introduces no duplicate.
   */
  lemma RemoveElementNoDuplicates<T>(xs: seq<T>, x: T)
    requires NoDuplicates(xs)
    ensures x !in RemoveElement(xs, x).rest
    ensures NoDuplicates(RemoveElement(xs, x).rest)
  {
  }

  /** `removeElement` removes exactly one copy of `x` when there is one, and nothing otherwise. */
  lemma RemoveElementMultiset<T>(xs: seq<T>, x: T)
    ensures multiset(RemoveElement(xs, x).rest) == multiset(xs) - multiset{x}
  {
    match IndexOf(xs, x)
    case None =>
      assert multiset(xs)[x] == 0;
    case Some(i) =>
      assert xs == xs[..i] + [x] + xs[i + 1..];
      assert multiset(xs) == multiset(xs[..i]) + multiset{x} + multiset(xs[i + 1..]);
  }

  /** Removing an element that a guarded insertion has just appended gives back the collection it started from. */
  lemma RemoveUndoesAdd<T>(xs: seq<T>, x: T)
    requires x !in xs
    ensures RemoveElement(AddIfAbsent(xs, x), x) == Removal(true, xs)
  {
  }
}
