/** `FlatMapOptimization`: the even numbers above 15 of a list of lists,
    selected either after flattening or inside each inner list before
    flattening. */
module FlatMapOptimization {
  import opened Seqs

  predicate GreaterThan15(n: int) { n > 15 }

  /** `n % 2 == 0`. Java's `%` truncates and Dafny's is Euclidean, but both
      give 0 exactly for the multiples of 2. */
  predicate IsEven(n: int) { n % 2 == 0 }

  predicate Wanted(n: int) { n > 15 && n % 2 == 0 }

  /** Way 1: `flatMap(List::stream)`, then the two filters. */
  function FlattenThenFilter(nested: seq<seq<int>>): seq<int>
  {
    Filter(IsEven, Filter(GreaterThan15, Flatten(nested)))
  }

  /** Way 2: the two filters inside `flatMap`, one inner list at a time. */
  function FilterInsideFlatMap(nested: seq<seq<int>>): seq<int>
  {
    if nested == [] then []
    else Filter(IsEven, Filter(GreaterThan15, nested[0])) + FilterInsideFlatMap(nested[1..])
  }

  /** Both ways produce the same list. */
  lemma {:induction false} PipelinesAgree(nested: seq<seq<int>>)
    ensures FlattenThenFilter(nested) == FilterInsideFlatMap(nested)
  {
    if nested != [] {
      PipelinesAgree(nested[1..]);
      FilterAppend(GreaterThan15, nested[0], Flatten(nested[1..]));
      FilterAppend(IsEven, Filter(GreaterThan15, nested[0]), Filter(GreaterThan15, Flatten(nested[1..])));
    }
  }

  /** The result holds only even numbers above 15, in their flattened order,
      and every such number of the input with its full multiplicity. */
  lemma ResultMeaning(nested: seq<seq<int>>)
    ensures forall i :: 0 <= i < |FlattenThenFilter(nested)| ==>
              FlattenThenFilter(nested)[i] > 15 && FlattenThenFilter(nested)[i] % 2 == 0
    ensures IsSubsequence(FlattenThenFilter(nested), Flatten(nested))
    ensures forall x :: multiset(FlattenThenFilter(nested))[x] ==
              if x > 15 && x % 2 == 0 then multiset(Flatten(nested))[x] else 0
  {
    var flat := Flatten(nested);
    FilterFuse(GreaterThan15, IsEven, Wanted, flat);
    FilterIsSubsequence(Wanted, flat);
    forall x
      ensures multiset(FlattenThenFilter(nested))[x] == if x > 15 && x % 2 == 0 then multiset(flat)[x] else 0
    {
      FilterMultiplicity(Wanted, flat, x);
    }
  }
}
