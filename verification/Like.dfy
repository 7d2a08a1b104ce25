/** The account search: a term escaped for SQL `LIKE`, against what `LIKE` then accepts. */
module Like {
  import opened Common
  import opened Strings

  /** `str::replace` for a one-character pattern. */
  function Replace(text: string, c: char, with: string): string {
    if text == "" then "" else (if text[0] == c then with else [text[0]]) + Replace(text[1..], c, with)
  }

  /** Three passes, the backslash first so the ones the later passes add are not escaped again. */
  function Escape(term: string): string {
    Replace(Replace(Replace(term, '\\', "\\\\"), '%', "\\%"), '_', "\\_")
  }

  function LikeContains(term: string): string {
    "%" + Escape(term) + "%"
  }

  /** SQL `LIKE`: `%` any text, `_` any character, a backslash the next character literally. */
  predicate Matches(text: string, pattern: string)
    decreases |text| + |pattern|
  {
    if pattern == "" then text == ""
    else if pattern[0] == '%' then Matches(text, pattern[1..]) || (text != "" && Matches(text[1..], pattern))
    else if pattern[0] == '_' then text != "" && Matches(text[1..], pattern[1..])
    else if pattern[0] == '\\' then |pattern| > 1 && text != "" && text[0] == pattern[1]
        && Matches(text[1..], pattern[2..])
    else text != "" && text[0] == pattern[0] && Matches(text[1..], pattern[1..])
  }

  /** A pattern that ends in the middle of an escape is an error, not a match. */
  predicate WellFormed(pattern: string) {
    pattern == "" || (if pattern[0] == '\\' then |pattern| > 1
        && WellFormed(pattern[2..]) else WellFormed(pattern[1..]))
  }

  // ---------- Three passes are one ----------

  predicate Meta(c: char) {
    c == '%' || c == '_' || c == '\\'
  }

  /** One backslash in front of each metacharacter. */
  function EscapeEach(term: string): string {
    if term == "" then "" else (if Meta(term[0]) then ['\\', term[0]] else [term[0]]) + EscapeEach(term[1..])
  }

  lemma {:induction false} ReplaceAppend(a: string, b: string, c: char, with: string)
    ensures Replace(a + b, c, with) == Replace(a, c, with) + Replace(b, c, with)
  {
    if a == "" {
      assert a + b == b;
    } else {
      assert (a + b)[1..] == a[1..] + b;
      ReplaceAppend(a[1..], b, c, with);
    }
  }

  lemma ReplaceOne(c: char, pattern: char, with: string)
    ensures Replace([c], pattern, with) == if c == pattern then with else [c]
  {
  }

  lemma EscapeOne(c: char)
    ensures Escape([c]) == if Meta(c) then ['\\', c] else [c]
  {
    ReplaceOne(c, '\\', "\\\\");
    ReplaceOne(c, '%', "\\%");
    ReplaceOne(c, '_', "\\_");
    if c == '\\' || c == '%' {
      assert ['\\', c] == ['\\'] + [c];
      ReplaceAppend(['\\'], [c], '%', "\\%");
      ReplaceAppend(['\\'], [c], '_', "\\_");
      ReplaceOne('\\', '%', "\\%");
      ReplaceOne('\\', '_', "\\_");
    }
  }

  lemma {:induction false} EscapeIsEscapeEach(term: string)
    ensures Escape(term) == EscapeEach(term)
  {
    if term != "" {
      var head, tail := [term[0]], term[1..];
      assert term == head + tail;
      var first := Replace(head, '\\', "\\\\");
      ReplaceAppend(head, tail, '\\', "\\\\");
      ReplaceAppend(first, Replace(tail, '\\', "\\\\"), '%', "\\%");
      ReplaceAppend(Replace(first, '%', "\\%"), Replace(Replace(tail, '\\', "\\\\"), '%', "\\%"), '_', "\\_");
      EscapeOne(term[0]);
      EscapeIsEscapeEach(tail);
    }
  }

  // ---------- What the pattern accepts ----------

  lemma {:induction false} PercentMatchesAnything(text: string)
    ensures Matches(text, "%")
    decreases |text|
  {
    assert "%"[1..] == "";
    if text != "" { PercentMatchesAnything(text[1..]); }
  }

  /** An escaped term matches itself and nothing else, wherever it stands. */
  lemma {:induction false} EscapedMatchesPrefix(text: string, term: string)
    ensures Matches(text, EscapeEach(term) + "%") <==> term <= text
    decreases |term|
  {
    var pattern := EscapeEach(term) + "%";
    if term == "" {
      assert pattern == "%";
      PercentMatchesAnything(text);
    } else {
      var width := if Meta(term[0]) then 2 else 1;
      assert pattern[width..] == EscapeEach(term[1..]) + "%";
      if text != "" {
        EscapedMatchesPrefix(text[1..], term[1..]);
        assert term <= text <==> term[0] == text[0] && term[1..] <= text[1..] by { PrefixByHead(term, text); }
      }
    }
  }

  lemma PrefixByHead(a: string, b: string)
    requires a != "" && b != ""
    ensures a <= b <==> a[0] == b[0] && a[1..] <= b[1..]
  {
  }

  lemma {:induction false} PercentThen(text: string, pattern: string)
    ensures Matches(text, "%" + pattern) <==> exists i :: 0 <= i <= |text| && Matches(text[i..], pattern)
    decreases |text|
  {
    assert ("%" + pattern)[1..] == pattern;
    assert text[0..] == text;
    if text != "" {
      PercentThen(text[1..], pattern);
      assert forall i :: 0 <= i <= |text[1..]| ==> text[1..][i..] == text[i + 1..];
      if i :| 0 <= i <= |text| && Matches(text[i..], pattern) {
        if i > 0 { assert text[1..][i - 1..] == text[i..]; }
      }
      if i :| 0 <= i <= |text[1..]| && Matches(text[1..][i..], pattern) {
        assert Matches(text[i + 1..], pattern);
      }
    }
  }

  predicate Contains(text: string, term: string) {
    exists i :: 0 <= i <= |text| && term <= text[i..]
  }

  /**
   The search means what it says: `LIKE` accepts a text against the pattern exactly when the term,
   metacharacters and all, is a contiguous part of it. The pattern is never malformed.
   */
  lemma LikeContainsIsContains(text: string, term: string)
    ensures Matches(text, LikeContains(term)) <==> Contains(text, term)
    ensures WellFormed(LikeContains(term))
  {
    EscapeIsEscapeEach(term);
    var pattern := EscapeEach(term) + "%";
    assert LikeContains(term) == "%" + pattern;
    PercentThen(text, pattern);
    forall i | 0 <= i <= |text| ensures Matches(text[i..], pattern) <==> term <= text[i..] {
      EscapedMatchesPrefix(text[i..], term);
    }
    EscapedIsWellFormed(term);
    assert LikeContains(term)[1..] == pattern;
  }

  lemma OneMoreCharacter(c: char, rest: string)
    requires WellFormed(rest)
    ensures WellFormed(if Meta(c) then ['\\', c] + rest else [c] + rest)
  {
  }

  lemma {:induction false} EscapedIsWellFormed(term: string)
    ensures WellFormed(EscapeEach(term) + "%")
  {
    hide WellFormed;
    if term == "" {
      assert EscapeEach(term) + "%" == "%";
      PercentIsWellFormed();
    } else {
      EscapedIsWellFormed(term[1..]);
      OneMoreCharacter(term[0], EscapeEach(term[1..]) + "%");
      assert EscapeEach(term) + "%"
          == (if Meta(term[0]) then ['\\', term[0]] else [term[0]]) + (EscapeEach(term[1..]) + "%");
    }
  }

  lemma PercentIsWellFormed()
    ensures WellFormed("%")
  {
  }

  // ---------- Building the filter ----------

  function SearchFilter(search: Option<string>, isSpace: char -> bool): Option<string> {
    if search.None? || Trim(search.value, isSpace) == "" then None else Some(LikeContains(Trim(search.value, isSpace)))
  }

  /** No filter exactly when there is nothing to search for; otherwise the trimmed term, literally. */
  lemma SearchFilterMeans(search: Option<string>, isSpace: char -> bool, text: string)
    ensures SearchFilter(search, isSpace).None? <==> search.None? || Blank(search.value, isSpace)
    ensures SearchFilter(search, isSpace).Some? ==>
              && IsTrimOf(Trim(search.value, isSpace), search.value, isSpace)
              && (Matches(text, SearchFilter(search, isSpace).value) <==> Contains(text, Trim(search.value, isSpace)))
  {
    if search.Some? {
      TrimTrims(search.value, isSpace);
      LikeContainsIsContains(text, Trim(search.value, isSpace));
    }
  }

  // ---------- Case ----------

  /** What the query parameter's documentation promises: a case-insensitive substring match on addresses. */
  ghost predicate IgnoresCase(term: string, lower: char -> char, isAddress: string -> bool) {
    forall email :: isAddress(email) ==>
      (Matches(Lower(email, lower), LikeContains(term)) <==> Contains(Lower(email, lower), Lower(term, lower)))
  }

  /** Some address has the term in it, were case not to matter. */
  ghost predicate OccursInAnAddress(term: string, lower: char -> char, isAddress: string -> bool) {
    exists email :: isAddress(email) && Contains(Lower(email, lower), Lower(term, lower))
  }

  lemma PartsOfLowerAreLower(text: string, term: string, lower: char -> char)
    requires forall c :: lower(lower(c)) == lower(c)
    requires Contains(Lower(text, lower), term)
    ensures Lower(term, lower) == term
  {
    var column := Lower(text, lower);
    var i :| 0 <= i <= |column| && term <= column[i..];
    forall k | 0 <= k < |term| ensures lower(term[k]) == term[k] {
      assert term[k] == column[i..][k] == column[i + k] == lower(text[i + k]);
    }
  }

  /**
   The column is lower-cased but the term is not, so the promise is kept exactly for terms that
   lower-casing leaves alone, and for those no address has in any case.
   */
  lemma IgnoresCaseExactly(term: string, lower: char -> char, isAddress: string -> bool)
    requires forall c :: lower(lower(c)) == lower(c)
    ensures IgnoresCase(term, lower, isAddress)
            <==> Lower(term, lower) == term || !OccursInAnAddress(term, lower, isAddress)
  {
    hide Matches, LikeContains, Contains, Lower;
    forall email ensures Matches(Lower(email, lower), LikeContains(term)) <==> Contains(Lower(email, lower), term) {
      LikeContainsIsContains(Lower(email, lower), term);
    }
    forall email | Contains(Lower(email, lower), term) ensures Lower(term, lower) == term {
      PartsOfLowerAreLower(email, term, lower);
    }
  }

  /** For an address and a capitalised beginning of it. */
  lemma CapitalFindsNothing()
    ensures Contains(Lower("ann@b.co", AsciiLower), Lower("Ann", AsciiLower))
    ensures !Matches(Lower("ann@b.co", AsciiLower), LikeContains("Ann"))
  {
    var email, term := Lower("ann@b.co", AsciiLower), Lower("Ann", AsciiLower);
    assert |email| == 8 && |term| == 3;
    assert forall i :: 0 <= i < 8 ==> email[i] == "ann@b.co"[i];
    assert forall i :: 0 <= i < 3 ==> term[i] == "ann"[i];
    assert term <= email[0..];
    LikeContainsIsContains(email, "Ann");
    forall i | 0 <= i <= 8 ensures !("Ann" <= email[i..]) {
      if i < 8 { assert email[i..][0] == email[i] != 'A'; }
    }
  }
}
