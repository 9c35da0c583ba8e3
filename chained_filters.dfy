/** `ChainedFilters`: the same word selection written as one `filter` with a
    compound test, as three chained `filter`s, and as the chained form with
    `peek` stages in between. */
module ChainedFilters {
  import opened Seqs
  import opened JavaStrings

  predicate LongerThanFour(word: string) { |word| > 4 }
  predicate ContainsE(word: string) { Contains(word, "e") }
  predicate NotStartsWithE(word: string) { !StartsWith(word, "e") }

  /** The first two chained tests together. */
  predicate LongAndContainsE(word: string) { LongerThanFour(word) && ContainsE(word) }

  /** The single compound test `length() > 4 && contains("e") && !startsWith("e")`. */
  predicate CombinedTest(word: string)
  {
    |word| > 4 && Contains(word, "e") && !StartsWith(word, "e")
  }

  /** Way 1: one `filter` with the compound test. */
  function SingleFilter(words: seq<string>): seq<string>
  {
    Filter(CombinedTest, words)
  }

  /** Way 2: three chained `filter`s. */
  function ChainedFilter(words: seq<string>): seq<string>
  {
    Filter(NotStartsWithE, Filter(ContainsE, Filter(LongerThanFour, words)))
  }

  /** A `peek` stage: it only prints each element and passes it on. */
  function Peek<T>(s: seq<T>): (r: seq<T>)
    ensures r == s
  {
    MapSeq((x: T) => x, s)
  }

  /** Way 3: the chained filters with a `peek` before each. */
  function PeekedPipeline(words: seq<string>): seq<string>
  {
    Filter(NotStartsWithE, Peek(Filter(ContainsE, Peek(Filter(LongerThanFour, Peek(words))))))
  }

  /** The chained filters select exactly what the single compound filter selects. */
  lemma ChainedEqualsSingle(words: seq<string>)
    ensures ChainedFilter(words) == SingleFilter(words)
  {
    FilterFuse(LongerThanFour, ContainsE, LongAndContainsE, words);
    FilterFuse(LongAndContainsE, NotStartsWithE, CombinedTest, words);
  }

  /** The `peek` stages do not change the result. */
  lemma PeekedEqualsChained(words: seq<string>)
    ensures PeekedPipeline(words) == ChainedFilter(words)
  {
  }

  /** A word is kept exactly when it is in the input, is longer than four
      characters, contains an 'e' and does not begin with one; the kept
      words keep their input order. */
  lemma SelectionMeaning(words: seq<string>)
    ensures forall w :: w in ChainedFilter(words) <==>
              w in words && |w| > 4 && 'e' in w && w[0] != 'e'
    ensures IsSubsequence(ChainedFilter(words), words)
  {
    ChainedEqualsSingle(words);
    FilterIsSubsequence(CombinedTest, words);
    forall w
      ensures w in ChainedFilter(words) <==> w in words && |w| > 4 && 'e' in w && w[0] != 'e'
    {
      FilterMembership(CombinedTest, words, w);
      ContainsChar(w, 'e');
      if |w| > 0 {
        assert StartsWith(w, "e") <==> w[0] == 'e' by {
          assert w[..1] == [w[0]];
        }
      }
    }
  }
}
