/** `MethodReferenceFilter`: dropping `null` and empty strings from a list,
    with a lambda, with `Objects::nonNull`, and with `StringUtils.isValid`.
    A Java `String` reference is an `Option<string>`; `None` is `null`. */
module MethodReferenceFilter {
  import opened Seqs
  import opened Optional
  import opened JavaStrings

  /** `s -> s != null`. */
  predicate NotNullLambda(s: Option<string>) { s.Some? }

  /** `Objects::nonNull`. */
  predicate ObjectsNonNull(s: Option<string>) { s != None }

  /** `s -> !s.isEmpty()`. It only ever sees the non-null strings the
      preceding filter lets through; on `null` Java would throw, and the
      model answers `false`. */
  predicate NotEmpty(s: Option<string>)
  {
    match s
    case None => false
    case Some(v) => v != []
  }

  /** `StringUtils.isValid`: non-null and not blank after `trim()`. */
  predicate IsValid(s: Option<string>)
  {
    s.Some? && Trim(s.value) != []
  }

  /** Non-null and non-empty, the two filters of ways 1 and 2 in one test. */
  predicate PresentAndNonEmpty(s: Option<string>) { NotNullLambda(s) && NotEmpty(s) }

  /** Way 1: the lambda filters. */
  function LambdaPipeline(words: seq<Option<string>>): seq<Option<string>>
  {
    Filter(NotEmpty, Filter(NotNullLambda, words))
  }

  /** Way 2: `Objects::nonNull`, then the lambda. */
  function MethodReferencePipeline(words: seq<Option<string>>): seq<Option<string>>
  {
    Filter(NotEmpty, Filter(ObjectsNonNull, words))
  }

  /** Way 3: `StringUtils::isValid`. */
  function ValidPipeline(words: seq<Option<string>>): seq<Option<string>>
  {
    Filter(IsValid, words)
  }

  /** `isValid` holds exactly for a non-null string with some character
      above U+0020; so it fails on `null`, on "" and on blank strings. */
  lemma IsValidMeaning(s: Option<string>)
    ensures IsValid(s) <==> s.Some? && exists i :: 0 <= i < |s.value| && s.value[i] > ' '
  {
    if s.Some? {
      TrimEmpty(s.value);
    }
  }

  /** A valid string is non-null and non-empty. */
  lemma ValidIsPresentAndNonEmpty(s: Option<string>)
    ensures IsValid(s) ==> PresentAndNonEmpty(s)
  {
    if s.Some? && s.value == [] {
      TrimEmpty(s.value);
    }
  }

  /** The lambda and the method-reference pipelines give the same list. */
  lemma LambdaEqualsMethodReference(words: seq<Option<string>>)
    ensures LambdaPipeline(words) == MethodReferencePipeline(words)
  {
    FilterCongruent(NotNullLambda, ObjectsNonNull, words);
  }

  /** Way 3's result is an order-preserving subsequence of way 1's. */
  lemma ValidIsSubsequenceOfNonEmpty(words: seq<Option<string>>)
    ensures IsSubsequence(ValidPipeline(words), LambdaPipeline(words))
  {
    forall s
      ensures IsValid(s) == (PresentAndNonEmpty(s) && IsValid(s))
    {
      ValidIsPresentAndNonEmpty(s);
    }
    FilterFuse(NotNullLambda, NotEmpty, PresentAndNonEmpty, words);
    FilterFuse(PresentAndNonEmpty, IsValid, IsValid, words);
    FilterIsSubsequence(IsValid, LambdaPipeline(words));
  }
}
