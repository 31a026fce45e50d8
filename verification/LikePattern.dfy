/** Prompt search: the ILIKE pattern built from a query, and PostgreSQL's matching of it. */
module LikePattern {
  import opened Text

  const ESCAPE := '\\'

  predicate IsSpecial(c: char) {
    c == ESCAPE || c == '%' || c == '_'
  }

  /** The replacer: one pass, each special character gets an escape in front. */
  function Escaped(s: string): string {
    if s == "" then ""
    else if IsSpecial(s[0]) then [ESCAPE, s[0]] + Escaped(s[1..])
    else [s[0]] + Escaped(s[1..])
  }

  function LikePatternOf(query: string): string {
    "%" + Escaped(TrimSpace(query)) + "%"
  }

  // ---- PostgreSQL LIKE ----

  /** No dangling escape at the end; PostgreSQL reports an error for one. */
  predicate WellFormed(pattern: string) {
    if pattern == "" then true
    else if pattern[0] == ESCAPE then |pattern| >= 2 && WellFormed(pattern[2..])
    else WellFormed(pattern[1..])
  }

  /** LIKE with a backslash as escape (section 9.7.1 of the PostgreSQL 16 documentation). */
  predicate Like(pattern: string, text: string)
    requires WellFormed(pattern)
    decreases |pattern| + |text|
  {
    if pattern == "" then text == ""
    else if pattern[0] == '%' then Like(pattern[1..], text) || (text != "" && Like(pattern, text[1..]))
    else if pattern[0] == '_' then text != "" && Like(pattern[1..], text[1..])
    else if pattern[0] == ESCAPE then text != "" && text[0] == pattern[1] && Like(pattern[2..], text[1..])
    else text != "" && text[0] == pattern[0] && Like(pattern[1..], text[1..])
  }

  ghost predicate Contains(text: string, part: string) {
    exists k :: 0 <= k <= |text| && part <= text[k..]
  }

  lemma WellFormedPlain(c: char, rest: string)
    requires !IsSpecial(c) || c == '%'
    ensures WellFormed([c] + rest) <==> WellFormed(rest)
  {
    assert ([c] + rest)[1..] == rest;
  }

  lemma WellFormedPair(c: char, rest: string)
    ensures WellFormed([ESCAPE, c] + rest) <==> WellFormed(rest)
  {
    assert ([ESCAPE, c] + rest)[2..] == rest;
  }

  lemma {:induction false} EscapedWellFormed(s: string, rest: string)
    requires WellFormed(rest)
    ensures WellFormed(Escaped(s) + rest)
  {
    if s == "" {
      assert Escaped(s) + rest == rest;
    } else {
      var head := if IsSpecial(s[0]) then [ESCAPE, s[0]] else [s[0]];
      var tail := Escaped(s[1..]) + rest;
      EscapedWellFormed(s[1..], rest);
      assert Escaped(s) + rest == head + tail;
      if IsSpecial(s[0]) {
        WellFormedPair(s[0], tail);
      } else {
        WellFormedPlain(s[0], tail);
      }
    }
  }

  lemma {:induction false} PercentMatchesAll(text: string)
    ensures WellFormed("%") && Like("%", text)
  {
    assert "%"[1..] == "";
    if text != "" {
      PercentMatchesAll(text[1..]);
    }
  }

  /** The escaped text followed by `%` matches exactly the texts that start with it. */
  lemma {:induction false} EscapedMatchesPrefix(s: string, text: string)
    ensures WellFormed(Escaped(s) + "%")
    ensures Like(Escaped(s) + "%", text) <==> s <= text
    decreases |s|
  {
    var pattern := Escaped(s) + "%";
    assert "%"[1..] == "";
    EscapedWellFormed(s, "%");
    if s == "" {
      assert pattern == "%";
      PercentMatchesAll(text);
    } else {
      if IsSpecial(s[0]) {
        assert pattern[2..] == Escaped(s[1..]) + "%";
      } else {
        assert pattern[1..] == Escaped(s[1..]) + "%";
      }
      if text != "" {
        EscapedMatchesPrefix(s[1..], text[1..]);
        assert s <= text <==> s[0] == text[0] && s[1..] <= text[1..];
      }
    }
  }

  /** The pattern matches the text from some position on. */
  predicate MatchesTail(pattern: string, text: string)
    requires WellFormed(pattern)
    decreases |text|
  {
    Like(pattern, text) || (text != "" && MatchesTail(pattern, text[1..]))
  }

  /** A leading `%` lets the rest match at any position. */
  lemma {:induction false} PercentShifts(rest: string, text: string)
    requires WellFormed(rest)
    ensures WellFormed("%" + rest)
    ensures Like("%" + rest, text) <==> MatchesTail(rest, text)
    decreases |text|
  {
    WellFormedPlain('%', rest);
    assert ("%" + rest)[1..] == rest;
    if text != "" {
      PercentShifts(rest, text[1..]);
    }
  }

  lemma ContainsUnfold(text: string, part: string)
    ensures Contains(text, part) <==> part <= text || (text != "" && Contains(text[1..], part))
  {
    if Contains(text, part) {
      var k :| 0 <= k <= |text| && part <= text[k..];
      if k > 0 {
        assert text[1..][k - 1..] == text[k..];
      } else {
        assert text[0..] == text;
      }
    }
    if part <= text {
      assert text[0..] == text;
    } else if text != "" && Contains(text[1..], part) {
      var k :| 0 <= k <= |text[1..]| && part <= text[1..][k..];
      assert text[1..][k..] == text[k + 1..];
    }
  }

  lemma {:induction false} TailIffContains(part: string, text: string)
    requires WellFormed(Escaped(part) + "%")
    ensures MatchesTail(Escaped(part) + "%", text) <==> Contains(text, part)
    decreases |text|
  {
    EscapedMatchesPrefix(part, text);
    ContainsUnfold(text, part);
    if text != "" {
      TailIffContains(part, text[1..]);
    }
  }

  /** Between two `%` an escaped text is searched for literally. */
  lemma EscapedBetweenPercents(part: string, text: string)
    ensures WellFormed("%" + (Escaped(part) + "%"))
    ensures Like("%" + (Escaped(part) + "%"), text) <==> Contains(text, part)
  {
    PercentMatchesAll("");
    EscapedWellFormed(part, "%");
    PercentShifts(Escaped(part) + "%", text);
    TailIffContains(part, text);
  }

  /** For every query and text the pattern is well formed, and it matches exactly when the text
      contains the trimmed query literally. */
  lemma PatternIsSubstringSearch(query: string, text: string)
    ensures WellFormed(LikePatternOf(query))
    ensures Like(LikePatternOf(query), text) <==> Contains(text, TrimSpace(query))
  {
    assert LikePatternOf(query) == "%" + (Escaped(TrimSpace(query)) + "%");
    EscapedBetweenPercents(TrimSpace(query), text);
  }

  // ---- case-insensitive matching ----

  /** Folds case character by character. */
  function Fold(fold: char -> char, s: string): (t: string)
    ensures |t| == |s|
    ensures forall i :: 0 <= i < |s| ==> t[i] == fold(s[i])
  {
    if s == "" then "" else [fold(s[0])] + Fold(fold, s[1..])
  }

  /** The fold leaves the pattern characters alone and makes no new ones. */
  ghost predicate FoldKeepsSpecials(fold: char -> char) {
    forall c :: (IsSpecial(c) ==> fold(c) == c) && (IsSpecial(fold(c)) ==> IsSpecial(c))
  }

  lemma {:induction false} FoldConcat(fold: char -> char, s: string, t: string)
    ensures Fold(fold, s + t) == Fold(fold, s) + Fold(fold, t)
  {
    if s == "" {
      assert s + t == t;
    } else {
      assert (s + t)[1..] == s[1..] + t;
      FoldConcat(fold, s[1..], t);
    }
  }

  lemma {:induction false} FoldEscaped(fold: char -> char, s: string)
    requires FoldKeepsSpecials(fold)
    ensures Fold(fold, Escaped(s)) == Escaped(Fold(fold, s))
  {
    if s != "" {
      var head := if IsSpecial(s[0]) then [ESCAPE, s[0]] else [s[0]];
      assert Escaped(s) == head + Escaped(s[1..]);
      FoldConcat(fold, head, Escaped(s[1..]));
      FoldEscaped(fold, s[1..]);
      assert IsSpecial(fold(s[0])) <==> IsSpecial(s[0]);
      assert IsSpecial(ESCAPE);
      assert Fold(fold, s)[0] == fold(s[0]) && Fold(fold, s)[1..] == Fold(fold, s[1..]);
    }
  }

  /** ILIKE folds both sides: the search finds the trimmed query literally, up to case. */
  lemma SearchIsCaseFoldedSubstring(fold: char -> char, query: string, text: string)
    requires FoldKeepsSpecials(fold)
    ensures WellFormed(Fold(fold, LikePatternOf(query)))
    ensures Like(Fold(fold, LikePatternOf(query)), Fold(fold, text))
            <==> Contains(Fold(fold, text), Fold(fold, TrimSpace(query)))
  {
    var part := TrimSpace(query);
    var folded := Fold(fold, part);
    assert IsSpecial('%');
    FoldConcat(fold, "%" + Escaped(part), "%");
    FoldConcat(fold, "%", Escaped(part));
    FoldEscaped(fold, part);
    assert Fold(fold, "%") == "%";
    assert Fold(fold, LikePatternOf(query)) == "%" + (Escaped(folded) + "%");
    EscapedBetweenPercents(folded, Fold(fold, text));
  }
}
