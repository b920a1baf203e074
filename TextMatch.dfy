/** The comparison behind the fetch predicate `CONTAINS[cd]`: a field matches a
    query when the query, folded for case and diacritics, occurs as a
    contiguous piece of the field, folded the same way.

    The folding is a fixed, character-by-character stand-in for Foundation's
    Unicode folding: Latin A-Z and Cyrillic А-Я are lower-cased, and the
    Cyrillic letters with a diacritic (Ё, ё, Й, й) lose it. What makes it a
    normalisation is proved below: folding twice is folding once. */
module TextMatch {

  /** One character, folded for case and diacritics. */
  function FoldChar(c: char): char
  {
    if c == '\U{0401}' || c == '\U{0451}' then '\U{0435}'       // Ё, ё -> е
    else if c == '\U{0419}' || c == '\U{0439}' then '\U{0438}'  // Й, й -> и
    else if 'A' <= c <= 'Z' then (c as int + 32) as char
    else if '\U{0410}' <= c <= '\U{042F}' then (c as int + 32) as char  // А-Я -> а-я
    else c
  }

  /** A whole string, folded character by character. */
  function Fold(s: string): (r: string)
    ensures |r| == |s|
    ensures forall i :: 0 <= i < |s| ==> r[i] == FoldChar(s[i])
  {
    if s == [] then [] else [FoldChar(s[0])] + Fold(s[1..])
  }

  /** Folding is a normalisation: a folded string is its own fold. */
  lemma FoldIdempotent(s: string)
    ensures Fold(Fold(s)) == Fold(s)
  {
    var f := Fold(s);
    forall i | 0 <= i < |s|
      ensures Fold(f)[i] == f[i]
    {
      var c := s[i];
      assert f[i] == FoldChar(c);
    }
  }

  /** `pattern` occurs in `text` as a contiguous piece. */
  predicate Contains(text: string, pattern: string)
    decreases |text|
  {
    pattern <= text || (text != [] && Contains(text[1..], pattern))
  }

  /** `pattern` starts at position `i` of `text`. */
  predicate OccursAt(text: string, pattern: string, i: nat)
  {
    i + |pattern| <= |text| && text[i..i + |pattern|] == pattern
  }

  /** A substring test that holds has a position where the pattern starts. */
  lemma {:induction false} ContainsHasPosition(text: string, pattern: string) returns (i: nat)
    requires Contains(text, pattern)
    ensures OccursAt(text, pattern, i)
    decreases |text|
  {
    if pattern <= text {
      i := 0;
    } else {
      var j := ContainsHasPosition(text[1..], pattern);
      assert text[j + 1..j + 1 + |pattern|] == text[1..][j..j + |pattern|];
      i := j + 1;
    }
  }

  /** A position where the pattern starts makes the substring test hold. */
  lemma {:induction false} PositionGivesContains(text: string, pattern: string, i: nat)
    requires OccursAt(text, pattern, i)
    ensures Contains(text, pattern)
    decreases i
  {
    if i == 0 {
      assert text[..|pattern|] == pattern;
    } else {
      assert text[i..i + |pattern|] == text[1..][i - 1..i - 1 + |pattern|];
      PositionGivesContains(text[1..], pattern, i - 1);
    }
  }

  /** Contains says exactly what a substring test should: there is a position
      of `text` at which `pattern` starts. */
  lemma ContainsIffOccurs(text: string, pattern: string)
    ensures Contains(text, pattern) <==> exists i: nat :: OccursAt(text, pattern, i)
  {
    if Contains(text, pattern) {
      var i := ContainsHasPosition(text, pattern);
    }
    forall i: nat | OccursAt(text, pattern, i)
      ensures Contains(text, pattern)
    {
      PositionGivesContains(text, pattern, i);
    }
  }

  /** The `[cd]` comparison: the folded query occurs in the folded field. */
  predicate MatchesFolded(field: string, query: string)
  {
    Contains(Fold(field), Fold(query))
  }

  /** The empty query occurs in every field. */
  lemma EmptyQueryMatches(field: string)
    ensures MatchesFolded(field, "")
  {
    assert Fold("") == [];
  }

  /** Case and diacritics of the query do not matter: a query and its folded
      form match the same fields. */
  lemma FoldedQueryMatchesSame(field: string, query: string)
    ensures MatchesFolded(field, Fold(query)) == MatchesFolded(field, query)
  {
    FoldIdempotent(query);
  }

  /** The same for the field. */
  lemma FoldedFieldMatchesSame(field: string, query: string)
    ensures MatchesFolded(Fold(field), query) == MatchesFolded(field, query)
  {
    FoldIdempotent(field);
  }

  /** A title "Buy milk" is found by the query "MILK". */
  lemma BuyMilkMatchesUpperCaseQuery()
    ensures MatchesFolded("Buy milk", "MILK")
  {
    var field, query := "Buy milk", "MILK";
    var f, q := Fold(field), Fold(query);
    assert field[4] == 'm' && field[5] == 'i' && field[6] == 'l' && field[7] == 'k';
    assert query[0] == 'M' && query[1] == 'I' && query[2] == 'L' && query[3] == 'K';
    assert |q| == 4 && q[0] == 'm' && q[1] == 'i' && q[2] == 'l' && q[3] == 'k';
    assert |f| == 8 && f[4] == 'm' && f[5] == 'i' && f[6] == 'l' && f[7] == 'k';
    assert f[4..8] == q;
    PositionGivesContains(f, q, 4);
  }
}
