/** The few `java.lang.String` operations the stream demos rely on, stated
    on Dafny strings (a Java `char` is one element of the sequence):
    `contains`, `startsWith`, `trim`, and `split("\\s+")`. */
module JavaStrings {
  import opened Seqs

  /** `sub` occurs in `s` starting at offset `i`. */
  predicate OccursAt(s: string, sub: string, i: nat)
  {
    i + |sub| <= |s| && s[i..i + |sub|] == sub
  }

  /** `s.contains(sub)`: `sub` occurs in `s` at some offset (the empty string occurs everywhere). */
  predicate Contains(s: string, sub: string)
  {
    exists i: nat :: i <= |s| && OccursAt(s, sub, i)
  }

  /** `s.startsWith(prefix)`. */
  predicate StartsWith(s: string, prefix: string)
  {
    |prefix| <= |s| && s[..|prefix|] == prefix
  }

  /** A one-character `contains` is plain membership. */
  lemma ContainsChar(s: string, c: char)
    ensures Contains(s, [c]) <==> c in s
  {
    if c in s {
      var i :| 0 <= i < |s| && s[i] == c;
      assert s[i..i + 1] == [c];
      assert OccursAt(s, [c], i);
    }
    if Contains(s, [c]) {
      var i: nat :| i <= |s| && OccursAt(s, [c], i);
      assert s[i] == s[i..i + 1][0];
    }
  }

  /** The characters `trim` strips: every code point up to U+0020. */
  predicate IsTrimmable(c: char)
  {
    c <= ' '
  }

  function TrimStart(s: string): (r: string)
    ensures |r| <= |s| && r == s[|s| - |r|..]
    ensures r != [] ==> !IsTrimmable(r[0])
    ensures forall i :: 0 <= i < |s| - |r| ==> IsTrimmable(s[i])
  {
    if s != [] && IsTrimmable(s[0]) then
      var r := TrimStart(s[1..]);
      assert forall i :: 1 <= i < |s| ==> s[i] == s[1..][i - 1];
      r
    else s
  }

  function TrimEnd(s: string): (r: string)
    ensures |r| <= |s| && r == s[..|r|]
    ensures r != [] ==> !IsTrimmable(r[|r| - 1])
    ensures forall i :: |r| <= i < |s| ==> IsTrimmable(s[i])
  {
    if s != [] && IsTrimmable(s[|s| - 1]) then
      var r := TrimEnd(s[..|s| - 1]);
      assert forall i :: 0 <= i < |s| - 1 ==> s[i] == s[..|s| - 1][i];
      r
    else s
  }

  /** `s.trim()`. */
  function Trim(s: string): string
  {
    TrimEnd(TrimStart(s))
  }

  /** `trim()` gives the empty string exactly when every character is at most U+0020. */
  lemma TrimEmpty(s: string)
    ensures Trim(s) == "" <==> forall i :: 0 <= i < |s| ==> IsTrimmable(s[i])
  {
    if Trim(s) == "" {
      // what `TrimEnd` strips is trimmable, and what `TrimStart` keeps starts with a non-trimmable character
      assert TrimStart(s) == [];
    }
  }

  /** The characters the regular expression `\s` matches. */
  predicate IsRegexSpace(c: char)
  {
    c == ' ' || c == '\t' || c == '\n' || c == '\U{000B}' || c == '\U{000C}' || c == '\r'
  }

  /** `s` without its leading run of `\s` characters. */
  function SkipSpaces(s: string): (r: string)
    ensures |r| <= |s|
    ensures r != [] ==> !IsRegexSpace(r[0])
  {
    if s != [] && IsRegexSpace(s[0]) then SkipSpaces(s[1..]) else s
  }

  /** What `SkipSpaces` drops is a run of `\s`, and it keeps the rest of `s`. */
  lemma {:induction false} SkipSpacesDropsRun(s: string)
    ensures SkipSpaces(s) == s[|s| - |SkipSpaces(s)|..]
    ensures forall i :: 0 <= i < |s| - |SkipSpaces(s)| ==> IsRegexSpace(s[i])
  {
    if s != [] && IsRegexSpace(s[0]) {
      SkipSpacesDropsRun(s[1..]);
      assert forall i :: 1 <= i < |s| ==> s[i] == s[1..][i - 1];
    }
  }

  /** Cuts `s` at every maximal run of `\s` characters; `current` is the
      field read so far. A leading run yields an empty first field and a
      trailing run an empty last field. */
  function Fields(s: string, current: string): (r: seq<string>)
    requires forall c :: c in current ==> !IsRegexSpace(c)
    ensures r != []
    ensures forall i :: 0 <= i < |r| ==> forall c :: c in r[i] ==> !IsRegexSpace(c)
    decreases |s|
  {
    if s == [] then [current]
    else if IsRegexSpace(s[0]) then [current] + Fields(SkipSpaces(s), [])
    else Fields(s[1..], current + [s[0]])
  }

  /** Drops the empty strings at the end, as `split` with no limit does. */
  function DropTrailingEmpty(fields: seq<string>): (r: seq<string>)
    ensures |r| <= |fields| && r == fields[..|r|]
    ensures r != [] ==> r[|r| - 1] != []
  {
    if fields != [] && fields[|fields| - 1] == [] then DropTrailingEmpty(fields[..|fields| - 1]) else fields
  }

  /** `s.split("\\s+")`: with no `\s` at all the result is `[s]` (even for
      the empty string); otherwise the fields between runs, with trailing
      empty fields removed. */
  function SplitOnSpaces(s: string): (tokens: seq<string>)
    ensures forall i :: 0 <= i < |tokens| ==> forall c :: c in tokens[i] ==> !IsRegexSpace(c)
  {
    if forall c :: c in s ==> !IsRegexSpace(c) then [s]
    else
      var fields := Fields(s, []);
      var kept := DropTrailingEmpty(fields);
      assert forall i :: 0 <= i < |kept| ==> kept[i] == fields[i];
      kept
  }

  /** The characters that end up inside tokens. */
  predicate IsNotRegexSpace(c: char) { !IsRegexSpace(c) }

  lemma {:induction false} SkipSpacesKeepsContent(s: string)
    ensures Filter(IsNotRegexSpace, SkipSpaces(s)) == Filter(IsNotRegexSpace, s)
  {
    if s != [] && IsRegexSpace(s[0]) {
      SkipSpacesKeepsContent(s[1..]);
    }
  }

  /** The fields hold, in order, the field read so far and then every non-`\s` character of `s`. */
  lemma {:induction false} FieldsContent(s: string, current: string)
    requires forall c :: c in current ==> !IsRegexSpace(c)
    ensures Flatten(Fields(s, current)) == current + Filter(IsNotRegexSpace, s)
    decreases |s|
  {
    if s == [] {
      assert [current][1..] == [];
    } else if IsRegexSpace(s[0]) {
      var t := SkipSpaces(s);
      assert t == SkipSpaces(s[1..]);
      FieldsContent(t, []);
      SkipSpacesKeepsContent(s[1..]);
      var rest := Fields(t, []);
      assert ([current] + rest)[1..] == rest;
    } else {
      FieldsContent(s[1..], current + [s[0]]);
    }
  }

  /** A field that has started is non-empty whatever follows. */
  lemma {:induction false} FieldsHeadNonEmpty(s: string, current: string)
    requires forall c :: c in current ==> !IsRegexSpace(c)
    requires current != []
    ensures Fields(s, current)[0] != []
    decreases |s|
  {
    if s != [] && !IsRegexSpace(s[0]) {
      FieldsHeadNonEmpty(s[1..], current + [s[0]]);
    }
  }

  /** Only the first and the last field can be empty. */
  lemma {:induction false} FieldsInnerNonEmpty(s: string, current: string)
    requires forall c :: c in current ==> !IsRegexSpace(c)
    ensures forall i :: 1 <= i < |Fields(s, current)| - 1 ==> Fields(s, current)[i] != []
    decreases |s|
  {
    if s == [] {
    } else if IsRegexSpace(s[0]) {
      var t := SkipSpaces(s);
      assert t == SkipSpaces(s[1..]);
      FieldsInnerNonEmpty(t, []);
      var g := Fields(t, []);
      if t != [] {
        var none: string := [];
        assert none + [t[0]] == [t[0]];
        assert g == Fields(t[1..], [t[0]]);
        FieldsHeadNonEmpty(t[1..], [t[0]]);
      } else {
        assert g == [[]];
      }
      var f := Fields(s, current);
      assert f == [current] + g;
      forall i | 1 <= i < |f| - 1
        ensures f[i] != []
      {
        assert f[i] == g[i - 1];
      }
    } else {
      FieldsInnerNonEmpty(s[1..], current + [s[0]]);
      assert Fields(s, current) == Fields(s[1..], current + [s[0]]);
    }
  }

  lemma {:induction false} DropTrailingEmptyKeepsContent(fields: seq<string>)
    ensures Flatten(DropTrailingEmpty(fields)) == Flatten(fields)
  {
    if fields != [] && fields[|fields| - 1] == [] {
      var init := fields[..|fields| - 1];
      DropTrailingEmptyKeepsContent(init);
      assert fields == init + [[]];
      var emptyField: seq<string> := [[]];
      FlattenAppend(init, emptyField);
      assert emptyField[1..] == [];
    }
  }

  /** A non-empty field is never dropped. */
  lemma {:induction false} DropTrailingEmptyKeepsIndex(fields: seq<string>, j: nat)
    requires j < |fields| && fields[j] != []
    ensures j < |DropTrailingEmpty(fields)|
  {
    if fields[|fields| - 1] == [] {
      DropTrailingEmptyKeepsIndex(fields[..|fields| - 1], j);
    }
  }

  lemma {:induction false} DropAllEmpty(fields: seq<string>)
    requires forall j :: 0 <= j < |fields| ==> fields[j] == []
    ensures DropTrailingEmpty(fields) == []
  {
    if fields != [] {
      DropAllEmpty(fields[..|fields| - 1]);
    }
  }

  lemma SplitOnSpacesContent(s: string)
    ensures Flatten(SplitOnSpaces(s)) == Filter(IsNotRegexSpace, s)
  {
    if forall c :: c in s ==> !IsRegexSpace(c) {
      FilterKeepsAll(IsNotRegexSpace, s);
      assert [s][1..] == [];
    } else {
      var f := Fields(s, []);
      assert SplitOnSpaces(s) == DropTrailingEmpty(f);
      DropTrailingEmptyKeepsContent(f);
      FieldsContent(s, []);
    }
  }

  lemma SplitOnSpacesLaterTokensNonEmpty(s: string)
    ensures forall i :: 1 <= i < |SplitOnSpaces(s)| ==> SplitOnSpaces(s)[i] != []
  {
    if !forall c :: c in s ==> !IsRegexSpace(c) {
      var f := Fields(s, []);
      var r := DropTrailingEmpty(f);
      assert SplitOnSpaces(s) == r;
      FieldsInnerNonEmpty(s, []);
      forall i | 1 <= i < |r|
        ensures r[i] != []
      {
        assert r[i] == f[i];
      }
    }
  }

  /** `split("\\s+")` loses only the `\s` characters: the tokens, joined,
      are the other characters of `s` in order; and every token after the
      first is non-empty. */
  lemma SplitOnSpacesMeaning(s: string)
    ensures Flatten(SplitOnSpaces(s)) == Filter(IsNotRegexSpace, s)
    ensures forall i :: 1 <= i < |SplitOnSpaces(s)| ==> SplitOnSpaces(s)[i] != []
  {
    SplitOnSpacesContent(s);
    SplitOnSpacesLaterTokensNonEmpty(s);
  }

  /** Every character of `w` is a `\s` character. */
  predicate AllSpaces(w: string)
  {
    forall i :: 0 <= i < |w| ==> IsRegexSpace(w[i])
  }

  /** `tokens[0] + gaps[0] + tokens[1] + ... + gaps[n - 2] + tokens[n - 1]`. */
  function Glue(tokens: seq<string>, gaps: seq<string>): string
    requires |tokens| == |gaps| + 1 || (tokens == [] && gaps == [])
    decreases |tokens|
  {
    if tokens == [] then []
    else if |tokens| == 1 then tokens[0]
    else tokens[0] + gaps[0] + Glue(tokens[1..], gaps[1..])
  }

  /** `s` is `tokens` in order, separated by the non-empty `\s` runs `gaps`
      and followed by the `\s` run `tail` (possibly empty). */
  predicate IsLayout(s: string, tokens: seq<string>, gaps: seq<string>, tail: string)
  {
    && (|tokens| == |gaps| + 1 || (tokens == [] && gaps == []))
    && (forall i :: 0 <= i < |gaps| ==> gaps[i] != [] && AllSpaces(gaps[i]))
    && AllSpaces(tail)
    && s == Glue(tokens, gaps) + tail
  }

  lemma {:induction false} GlueSnoc(tokens: seq<string>, gaps: seq<string>, gap: string, token: string)
    requires |tokens| == |gaps| + 1
    ensures Glue(tokens + [token], gaps + [gap]) == Glue(tokens, gaps) + gap + token
    decreases |tokens|
  {
    if |tokens| == 1 {
      assert (tokens + [token])[1..] == [token];
    } else {
      GlueSnoc(tokens[1..], gaps[1..], gap, token);
      assert (tokens + [token])[1..] == tokens[1..] + [token];
      assert (gaps + [gap])[1..] == gaps[1..] + [gap];
    }
  }

  /** The fields of `s`, glued back with the `\s` runs between them, give
      back the field read so far followed by `s`. */
  lemma {:induction false} FieldsLayout(s: string, current: string) returns (gaps: seq<string>)
    requires forall c :: c in current ==> !IsRegexSpace(c)
    ensures |Fields(s, current)| == |gaps| + 1
    ensures forall i :: 0 <= i < |gaps| ==> gaps[i] != [] && AllSpaces(gaps[i])
    ensures current + s == Glue(Fields(s, current), gaps)
    decreases |s|
  {
    if s == [] {
      gaps := [];
    } else if IsRegexSpace(s[0]) {
      var t := SkipSpaces(s);
      assert t == SkipSpaces(s[1..]);
      SkipSpacesDropsRun(s);
      var run := s[..|s| - |t|];
      assert s == run + t;
      assert forall i :: 0 <= i < |run| ==> run[i] == s[i];
      var rest := FieldsLayout(t, []);
      gaps := [run] + rest;
      var g := Fields(t, []);
      assert Fields(s, current) == [current] + g;
      assert ([current] + g)[1..] == g;
      assert ([run] + rest)[1..] == rest;
      assert [] + t == t;
    } else {
      gaps := FieldsLayout(s[1..], current + [s[0]]);
      assert current + s == (current + [s[0]]) + s[1..];
      assert Fields(s, current) == Fields(s[1..], current + [s[0]]);
    }
  }

  /** Dropping the trailing empty fields moves their `\s` runs into the tail. */
  lemma {:induction false} DropTrailingEmptyLayout(fields: seq<string>, gaps: seq<string>, tail: string)
    returns (keptGaps: seq<string>, keptTail: string)
    requires |fields| == |gaps| + 1
    requires forall i :: 0 <= i < |gaps| ==> gaps[i] != [] && AllSpaces(gaps[i])
    requires AllSpaces(tail)
    ensures IsLayout(Glue(fields, gaps) + tail, DropTrailingEmpty(fields), keptGaps, keptTail)
    decreases |fields|
  {
    var n := |fields|;
    if fields[n - 1] != [] {
      keptGaps, keptTail := gaps, tail;
    } else if n == 1 {
      assert fields[..0] == [];
      keptGaps, keptTail := [], tail;
    } else {
      var init := fields[..n - 1];
      var initGaps := gaps[..n - 2];
      var last := gaps[n - 2];
      assert fields == init + [[]];
      assert gaps == initGaps + [last];
      GlueSnoc(init, initGaps, last, []);
      var longerTail := last + tail;
      assert AllSpaces(last);
      forall i | 0 <= i < |longerTail|
        ensures IsRegexSpace(longerTail[i])
      {
        if i >= |last| {
          assert longerTail[i] == tail[i - |last|];
        }
      }
      keptGaps, keptTail := DropTrailingEmptyLayout(init, initGaps, longerTail);
      assert Glue(fields, gaps) + tail == Glue(init, initGaps) + longerTail;
    }
  }

  /** Where `split("\\s+")` cuts: `s` is the tokens in order, each pair of
      consecutive tokens separated by a non-empty run of `\s`, followed by a
      possibly empty run of `\s`. As no token holds a `\s` character, every
      token is a maximal stretch of `s` without one (the first may be empty
      when `s` starts with `\s`). */
  lemma SplitOnSpacesLayout(s: string)
    ensures exists gaps, tail :: IsLayout(s, SplitOnSpaces(s), gaps, tail)
  {
    if forall c :: c in s ==> !IsRegexSpace(c) {
      assert s + [] == s;
      assert SplitOnSpaces(s) == [s];
      assert IsLayout(s, [s], [], []);
    } else {
      var f := Fields(s, []);
      var gaps := FieldsLayout(s, []);
      assert [] + s == s && s + [] == s;
      var keptGaps, keptTail := DropTrailingEmptyLayout(f, gaps, []);
      assert SplitOnSpaces(s) == DropTrailingEmpty(f);
      assert IsLayout(s, SplitOnSpaces(s), keptGaps, keptTail);
    }
  }

  /** An empty string splits into one empty token. */
  lemma EmptyStringTokens()
    ensures SplitOnSpaces("") == [""]
  {
  }

  /** Leading `\s` before some other character gives an empty first token. */
  lemma LeadingBlankTokens(s: string)
    requires s != [] && IsRegexSpace(s[0])
    requires exists i :: 0 <= i < |s| && !IsRegexSpace(s[i])
    ensures |SplitOnSpaces(s)| >= 2 && SplitOnSpaces(s)[0] == ""
  {
    assert s[0] in s;
    var f := Fields(s, []);
    var t := SkipSpaces(s);
    var g := Fields(t, []);
    assert f == [[]] + g;
    var i :| 0 <= i < |s| && !IsRegexSpace(s[i]);
    FilterMembership(IsNotRegexSpace, s, s[i]);
    SkipSpacesKeepsContent(s);
    FieldsContent(t, []);
    assert [] + Filter(IsNotRegexSpace, t) == Filter(IsNotRegexSpace, t);
    FlattenMembership(g, s[i]);
    var j :| 0 <= j < |g| && s[i] in g[j];
    assert f[j + 1] == g[j];
    DropTrailingEmptyKeepsIndex(f, j + 1);
  }

  /** Trailing `\s` gives no token: the last token of a non-empty string is never empty. */
  lemma TrailingBlankTokens(s: string)
    requires s != []
    ensures SplitOnSpaces(s) == [] || SplitOnSpaces(s)[|SplitOnSpaces(s)| - 1] != []
  {
  }

  /** A non-empty string splits into no token at all exactly when it is all `\s`. */
  lemma BlankTokens(s: string)
    requires s != []
    ensures SplitOnSpaces(s) == [] <==> forall i :: 0 <= i < |s| ==> IsRegexSpace(s[i])
  {
    SplitOnSpacesContent(s);
    if forall i :: 0 <= i < |s| ==> IsRegexSpace(s[i]) {
      assert s[0] in s;
      var f := Fields(s, []);
      FieldsContent(s, []);
      var kept := Filter(IsNotRegexSpace, s);
      if kept != [] {
        FilterMembership(IsNotRegexSpace, s, kept[0]);
        assert false;
      }
      FlattenEmpty(f);
      DropAllEmpty(f);
    } else {
      var i :| 0 <= i < |s| && !IsRegexSpace(s[i]);
      FilterMembership(IsNotRegexSpace, s, s[i]);
    }
  }
}
