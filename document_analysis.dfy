/** `DocumentAnalyzer`: word extraction, word frequencies, keyword search
    and one-line summaries over a list of documents, each a title and a
    list of paragraphs. */
module DocumentAnalysis {
  import opened Seqs
  import opened JavaStrings

  datatype Document = Document(title: string, contents: seq<string>)

  function Title(d: Document): string { d.title }
  function Contents(d: Document): seq<string> { d.contents }

  /** The characters `replaceAll("[^\\u4e00-\\u9fa5a-zA-Z]", "")` keeps:
      Latin letters and the CJK ideographs U+4E00 to U+9FA5. */
  predicate IsWordChar(c: char)
  {
    'a' <= c <= 'z' || 'A' <= c <= 'Z' || '\U{4E00}' <= c <= '\U{9FA5}'
  }

  /** A token with every other character removed. */
  function CleanWord(token: string): string
  {
    Filter(IsWordChar, token)
  }

  predicate NonEmpty(word: string) { word != [] }

  /** The raw tokens of some paragraphs, `split("\\s+")` one after another. */
  function Tokens(paragraphs: seq<string>): seq<string>
  {
    Flatten(MapSeq(SplitOnSpaces, paragraphs))
  }

  /** Tokens cleaned, the ones left empty dropped. */
  function CleanWords(tokens: seq<string>): seq<string>
  {
    Filter(NonEmpty, MapSeq(CleanWord, tokens))
  }

  /** `extractAllWords`: all paragraphs of all documents, split, cleaned,
      empty words dropped. */
  function ExtractAllWords(documents: seq<Document>): seq<string>
  {
    CleanWords(Tokens(Flatten(MapSeq(Contents, documents))))
  }

  /** The words of one paragraph. */
  function ParagraphWords(paragraph: string): seq<string>
  {
    CleanWords(SplitOnSpaces(paragraph))
  }

  /** The words of one document: its paragraphs' words in paragraph order. */
  function DocumentWords(d: Document): seq<string>
  {
    Flatten(MapSeq(ParagraphWords, d.contents))
  }

  /** Every extracted word is non-empty and made of Latin letters and CJK ideographs only. */
  lemma ExtractedWordsAreClean(documents: seq<Document>)
    ensures forall i :: 0 <= i < |ExtractAllWords(documents)| ==>
              ExtractAllWords(documents)[i] != [] &&
              forall c :: c in ExtractAllWords(documents)[i] ==> IsWordChar(c)
  {
    var tokens := Tokens(Flatten(MapSeq(Contents, documents)));
    var cleaned := MapSeq(CleanWord, tokens);
    forall i | 0 <= i < |ExtractAllWords(documents)|
      ensures forall c :: c in ExtractAllWords(documents)[i] ==> IsWordChar(c)
    {
      var w := ExtractAllWords(documents)[i];
      FilterMembership(NonEmpty, cleaned, w);
      var j :| 0 <= j < |cleaned| && cleaned[j] == w;
      forall c | c in w
        ensures IsWordChar(c)
      {
        FilterMembership(IsWordChar, tokens[j], c);
      }
    }
  }

  lemma CleanWordsAppend(a: seq<string>, b: seq<string>)
    ensures CleanWords(a + b) == CleanWords(a) + CleanWords(b)
  {
    MapAppend(CleanWord, a, b);
    FilterAppend(NonEmpty, MapSeq(CleanWord, a), MapSeq(CleanWord, b));
  }

  lemma TokensAppend(a: seq<string>, b: seq<string>)
    ensures Tokens(a + b) == Tokens(a) + Tokens(b)
  {
    MapAppend(SplitOnSpaces, a, b);
    FlattenAppend(MapSeq(SplitOnSpaces, a), MapSeq(SplitOnSpaces, b));
  }

  /** The words of some paragraphs come paragraph by paragraph. */
  lemma {:induction false} ParagraphOrder(paragraphs: seq<string>)
    ensures CleanWords(Tokens(paragraphs)) == Flatten(MapSeq(ParagraphWords, paragraphs))
  {
    if paragraphs != [] {
      var p, rest := paragraphs[0], paragraphs[1..];
      assert paragraphs == [p] + rest;
      ParagraphOrder(rest);
      TokensAppend([p], rest);
      assert Tokens([p]) == SplitOnSpaces(p);
      CleanWordsAppend(SplitOnSpaces(p), Tokens(rest));
      assert MapSeq(ParagraphWords, paragraphs)[1..] == MapSeq(ParagraphWords, rest);
    }
  }

  /** Extracted words come in document order, then paragraph order, then
      token order. */
  lemma {:induction false} WordsInDocumentOrder(documents: seq<Document>)
    ensures ExtractAllWords(documents) == Flatten(MapSeq(DocumentWords, documents))
  {
    if documents != [] {
      var d, rest := documents[0], documents[1..];
      WordsInDocumentOrder(rest);
      assert MapSeq(Contents, documents)[1..] == MapSeq(Contents, rest);
      assert Flatten(MapSeq(Contents, documents)) == d.contents + Flatten(MapSeq(Contents, rest));
      TokensAppend(d.contents, Flatten(MapSeq(Contents, rest)));
      CleanWordsAppend(Tokens(d.contents), Tokens(Flatten(MapSeq(Contents, rest))));
      ParagraphOrder(d.contents);
      assert MapSeq(DocumentWords, documents)[1..] == MapSeq(DocumentWords, rest);
    }
  }

  /** `groupingBy(identity(), counting())`: how often each word occurs. */
  function WordFrequency(words: seq<string>): (frequency: map<string, nat>)
    ensures forall w :: w in frequency <==> w in words
    ensures forall w :: w in frequency ==> frequency[w] == multiset(words)[w] >= 1
  {
    if words == [] then map[]
    else
      var earlier, w := words[..|words| - 1], words[|words| - 1];
      assert words == earlier + [w];
      CountOneMore(WordFrequency(earlier), w)
  }

  /** A frequency map after one more occurrence of `w`. */
  function CountOneMore(counts: map<string, nat>, w: string): map<string, nat>
  {
    counts[w := (if w in counts then counts[w] else 0) + 1]
  }

  /** `analyzeWordFrequency`. */
  function AnalyzeWordFrequency(documents: seq<Document>): map<string, nat>
  {
    WordFrequency(ExtractAllWords(documents))
  }

  /** The sum of all counts of a frequency map. */
  ghost function TotalCount(frequency: map<string, nat>): nat
    decreases |frequency|
  {
    if frequency == map[] then 0
    else
      var w :| w in frequency;
      assert (frequency - {w}).Keys == frequency.Keys - {w};
      frequency[w] + TotalCount(frequency - {w})
  }

  /** The total may be taken apart at any word. */
  lemma {:induction false} TotalCountRemove(frequency: map<string, nat>, w: string)
    requires w in frequency
    ensures TotalCount(frequency) == frequency[w] + TotalCount(frequency - {w})
    decreases |frequency|
  {
    var v :| v in frequency && TotalCount(frequency) == frequency[v] + TotalCount(frequency - {v});
    if v != w {
      assert (frequency - {v}).Keys == frequency.Keys - {v};
      TotalCountRemove(frequency - {v}, w);
      assert (frequency - {w}).Keys == frequency.Keys - {w};
      TotalCountRemove(frequency - {w}, v);
      assert frequency - {v} - {w} == frequency - {w} - {v};
    }
  }

  /** One more occurrence adds one to the total. */
  lemma TotalCountOneMore(counts: map<string, nat>, w: string)
    ensures TotalCount(CountOneMore(counts, w)) == TotalCount(counts) + 1
  {
    var updated := CountOneMore(counts, w);
    TotalCountRemove(updated, w);
    assert updated - {w} == counts - {w};
    if w in counts {
      TotalCountRemove(counts, w);
    } else {
      assert counts - {w} == counts;
    }
  }

  /** The counts add up to the number of words. */
  lemma {:induction false} CountsSumToLength(words: seq<string>)
    ensures TotalCount(WordFrequency(words)) == |words|
  {
    if words != [] {
      var earlier := words[..|words| - 1];
      CountsSumToLength(earlier);
      TotalCountOneMore(WordFrequency(earlier), words[|words| - 1]);
    }
  }

  /** Each frequency is the number of occurrences of its word among the
      extracted words, at least one, and together they count every word. */
  lemma WordFrequencyMeaning(documents: seq<Document>)
    ensures forall w :: w in AnalyzeWordFrequency(documents) <==> w in ExtractAllWords(documents)
    ensures forall w :: w in AnalyzeWordFrequency(documents) ==>
              AnalyzeWordFrequency(documents)[w] == multiset(ExtractAllWords(documents))[w] >= 1
    ensures TotalCount(AnalyzeWordFrequency(documents)) == |ExtractAllWords(documents)|
  {
    CountsSumToLength(ExtractAllWords(documents));
  }

  /** `content.contains(keyword)` for some paragraph (`anyMatch`). */
  function MentionsKeyword(keyword: string): Document -> bool
  {
    (d: Document) => exists p :: p in d.contents && Contains(p, keyword)
  }

  /** `findDocumentsContaining`: the titles of the documents that mention the keyword. */
  function FindDocumentsContaining(documents: seq<Document>, keyword: string): seq<string>
  {
    MapSeq(Title, Filter(MentionsKeyword(keyword), documents))
  }

  /** A document is selected exactly when one of its paragraphs contains the
      keyword, and the titles come in document order. */
  lemma FindDocumentsMeaning(documents: seq<Document>, keyword: string)
    ensures forall d :: d in Filter(MentionsKeyword(keyword), documents) <==>
              d in documents && exists p :: p in d.contents && Contains(p, keyword)
    ensures IsSubsequence(FindDocumentsContaining(documents, keyword), MapSeq(Title, documents))
  {
    forall d {
      FilterMembership(MentionsKeyword(keyword), documents, d);
    }
    MapFilterIsSubsequence(Title, MentionsKeyword(keyword), documents);
  }

  /** The parts `String.format("%s [%d词] - %s", ...)` puts together. */
  datatype Summary = Summary(title: string, wordCount: nat, excerpt: string)

  /** The first paragraph, or "" when there is none. */
  function FirstSentence(d: Document): string
  {
    if d.contents == [] then "" else d.contents[0]
  }

  /** The first paragraph when at most 20 characters, else its first 20 and "...". */
  function Excerpt(sentence: string): string
  {
    if |sentence| > 20 then sentence[..20] + "..." else sentence
  }

  function Summarize(d: Document): Summary
  {
    Summary(d.title, |Tokens(d.contents)|, Excerpt(FirstSentence(d)))
  }

  /** `generateDocumentSummaries`. */
  function GenerateDocumentSummaries(documents: seq<Document>): seq<Summary>
  {
    MapSeq(Summarize, documents)
  }

  /** An excerpt is the whole sentence when short, else a 20-character
      prefix marked by "..."; it never exceeds 23 characters. */
  lemma ExcerptMeaning(sentence: string)
    ensures |Excerpt(sentence)| <= 23
    ensures |sentence| <= 20 ==> Excerpt(sentence) == sentence
    ensures |sentence| > 20 ==>
              StartsWith(sentence, Excerpt(sentence)[..20]) && Excerpt(sentence)[20..] == "..."
  {
  }

  /** Cleaning drops or shortens tokens but never adds any. */
  lemma CleanWordsAtMostTokens(tokens: seq<string>)
    ensures |CleanWords(tokens)| <= |tokens|
  {
  }

  /** Summaries: one per document, in order, each with the title, the
      number of raw whitespace-separated tokens (at least the number of
      cleaned words) and the excerpt of the first paragraph. */
  lemma SummariesMeaning(documents: seq<Document>)
    ensures |GenerateDocumentSummaries(documents)| == |documents|
    ensures forall i :: 0 <= i < |documents| ==>
              var s := GenerateDocumentSummaries(documents)[i];
              && s.title == documents[i].title
              && s.wordCount == |Tokens(documents[i].contents)| >= |DocumentWords(documents[i])|
              && s.excerpt == Excerpt(FirstSentence(documents[i]))
  {
    forall i | 0 <= i < |documents|
      ensures |Tokens(documents[i].contents)| >= |DocumentWords(documents[i])|
    {
      ParagraphOrder(documents[i].contents);
      CleanWordsAtMostTokens(Tokens(documents[i].contents));
    }
  }
}
