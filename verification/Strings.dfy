/** String operations the source takes from its standard library; `isSpace` stands for Unicode white space. */
module Strings {

  /** What `trim().is_empty()` asks. */
  predicate Blank(text: string, isSpace: char -> bool) {
    forall i :: 0 <= i < |text| ==> isSpace(text[i])
  }

  function TrimStart(text: string, isSpace: char -> bool): string {
    if text != "" && isSpace(text[0]) then TrimStart(text[1..], isSpace) else text
  }

  function TrimEnd(text: string, isSpace: char -> bool): string {
    if text != "" && isSpace(text[|text| - 1]) then TrimEnd(text[..|text| - 1], isSpace) else text
  }

  function Trim(text: string, isSpace: char -> bool): string {
    TrimEnd(TrimStart(text, isSpace), isSpace)
  }

  /** The trimmed text neither starts nor ends with a space, and only spaces were cut off. */
  predicate IsTrimOf(trimmed: string, text: string, isSpace: char -> bool) {
    && (trimmed != "" ==> !isSpace(trimmed[0]) && !isSpace(trimmed[|trimmed| - 1]))
    && exists i, j :: 0 <= i <= j <= |text| && trimmed == text[i..j] && Blank(text[..i], isSpace)
        && Blank(text[j..], isSpace)
  }

  lemma {:induction false} TrimStartCuts(text: string, isSpace: char -> bool) returns (i: nat)
    ensures i <= |text| && TrimStart(text, isSpace) == text[i..] && Blank(text[..i], isSpace)
    ensures i < |text| ==> !isSpace(text[i])
  {
    if text != "" && isSpace(text[0]) {
      var k := TrimStartCuts(text[1..], isSpace);
      i := k + 1;
      assert text[1..][k..] == text[i..];
      forall m | 0 <= m < i ensures isSpace(text[..i][m]) {
        if m > 0 { assert text[1..][..k][m - 1] == text[m]; }
      }
    } else {
      i := 0;
    }
  }

  lemma {:induction false} TrimEndCuts(text: string, isSpace: char -> bool) returns (j: nat)
    ensures j <= |text| && TrimEnd(text, isSpace) == text[..j] && Blank(text[j..], isSpace)
    ensures j > 0 ==> !isSpace(text[j - 1])
  {
    if text != "" && isSpace(text[|text| - 1]) {
      var shorter := text[..|text| - 1];
      j := TrimEndCuts(shorter, isSpace);
      forall m | 0 <= m < |text| - j ensures isSpace(text[j..][m]) {
        if m < |text| - j - 1 { assert shorter[j..][m] == text[j + m]; }
      }
    } else {
      j := |text|;
    }
  }

  lemma TrimTrims(text: string, isSpace: char -> bool)
    ensures IsTrimOf(Trim(text, isSpace), text, isSpace)
    ensures Trim(text, isSpace) == "" <==> Blank(text, isSpace)
  {
    var i := TrimStartCuts(text, isSpace);
    var start := text[i..];
    var k := TrimEndCuts(start, isSpace);
    var trimmed := Trim(text, isSpace);
    assert trimmed == text[i..i + k] && start[k..] == text[i + k..];
    if trimmed != "" {
      assert trimmed[0] == text[i] && trimmed[|trimmed| - 1] == start[k - 1];
    }
    assert i < |text| ==> start[0] == text[i];
    assert k == 0 ==> start[k..] == start;
    assert k > 0 ==> !isSpace(start[k - 1]) && start[k - 1] == text[i + k - 1];
    assert i == |text| ==> text[..i] == text;
  }

  function Lower(text: string, lower: char -> char): string {
    seq(|text|, i requires 0 <= i < |text| => lower(text[i]))
  }

  /** `split(stop).next()`. */
  function UpTo(text: string, stop: char): (head: string)
    ensures head <= text && stop !in head
    ensures |head| < |text| ==> text[|head|] == stop
  {
    if text == "" || text[0] == stop then "" else [text[0]] + UpTo(text[1..], stop)
  }

  function AsciiLower(c: char): char {
    if 'A' <= c <= 'Z' then c + 32 as char else c
  }

  /** How the platform classifies and lowers characters. */
  datatype Letters = Letters(isSpace: char -> bool, lower: char -> char)

  function NormalizeEmail(email: string, letters: Letters): string {
    Lower(Trim(email, letters.isSpace), letters.lower)
  }

  lemma TrimmedStaysTrimmed(text: string, isSpace: char -> bool)
    ensures Trim(Trim(text, isSpace), isSpace) == Trim(text, isSpace)
  {
    TrimTrims(text, isSpace);
  }

  lemma {:induction false} BlankStartGoes(before: string, text: string, isSpace: char -> bool)
    requires Blank(before, isSpace)
    ensures TrimStart(before + text, isSpace) == TrimStart(text, isSpace)
  {
    if before == "" {
      assert before + text == text;
    } else {
      assert (before + text)[1..] == before[1..] + text;
      BlankStartGoes(before[1..], text, isSpace);
    }
  }

  lemma {:induction false} BlankEndGoes(text: string, after: string, isSpace: char -> bool)
    requires Blank(after, isSpace)
    ensures TrimEnd(text + after, isSpace) == TrimEnd(text, isSpace)
    decreases |after|
  {
    if after == "" {
      assert text + after == text;
    } else {
      var n := |after| - 1;
      assert (text + after)[..|text + after| - 1] == text + after[..n];
      BlankEndGoes(text, after[..n], isSpace);
    }
  }

  lemma {:induction false} StartOfMore(text: string, after: string, isSpace: char -> bool)
    requires !Blank(text, isSpace)
    ensures TrimStart(text + after, isSpace) == TrimStart(text, isSpace) + after
  {
    if isSpace(text[0]) {
      assert (text + after)[1..] == text[1..] + after;
      StartOfMore(text[1..], after, isSpace);
    }
  }

  lemma BlanksGo(before: string, text: string, after: string, isSpace: char -> bool)
    requires Blank(before, isSpace) && Blank(after, isSpace)
    ensures Trim(before + text + after, isSpace) == Trim(text, isSpace)
  {
    assert before + text + after == before + (text + after);
    BlankStartGoes(before, text + after, isSpace);
    if Blank(text, isSpace) {
      TrimTrims(text + after, isSpace);
      TrimTrims(text, isSpace);
      assert Blank(text + after, isSpace);
    } else {
      StartOfMore(text, after, isSpace);
      BlankEndGoes(TrimStart(text, isSpace), after, isSpace);
    }
  }

  lemma {:induction false} StartOfLower(text: string, letters: Letters)
    requires forall c :: letters.isSpace(letters.lower(c)) == letters.isSpace(c)
    ensures TrimStart(Lower(text, letters.lower), letters.isSpace)
         == Lower(TrimStart(text, letters.isSpace), letters.lower)
  {
    if text != "" && letters.isSpace(text[0]) {
      assert Lower(text, letters.lower)[1..] == Lower(text[1..], letters.lower);
      StartOfLower(text[1..], letters);
    }
  }

  lemma {:induction false} EndOfLower(text: string, letters: Letters)
    requires forall c :: letters.isSpace(letters.lower(c)) == letters.isSpace(c)
    ensures TrimEnd(Lower(text, letters.lower), letters.isSpace) == Lower(TrimEnd(text, letters.isSpace), letters.lower)
  {
    if text != "" && letters.isSpace(text[|text| - 1]) {
      assert Lower(text, letters.lower)[..|text| - 1] == Lower(text[..|text| - 1], letters.lower);
      EndOfLower(text[..|text| - 1], letters);
    }
  }

  /** Case and surrounding blanks make no difference, and a normalised address is left as it is. */
  lemma NormalizesAway(email: string, before: string, after: string, letters: Letters)
    requires forall c :: letters.lower(letters.lower(c)) == letters.lower(c)
    requires forall c :: letters.isSpace(letters.lower(c)) == letters.isSpace(c)
    requires Blank(before, letters.isSpace) && Blank(after, letters.isSpace)
    ensures NormalizeEmail(before + Lower(email, letters.lower) + after, letters) == NormalizeEmail(email, letters)
    ensures NormalizeEmail(NormalizeEmail(email, letters), letters) == NormalizeEmail(email, letters)
  {
    var lowered, trimmed := Lower(email, letters.lower), Trim(email, letters.isSpace);
    BlanksGo(before, lowered, after, letters.isSpace);
    StartOfLower(email, letters);
    EndOfLower(TrimStart(email, letters.isSpace), letters);
    assert Lower(Lower(trimmed, letters.lower), letters.lower) == Lower(trimmed, letters.lower);
    StartOfLower(trimmed, letters);
    EndOfLower(TrimStart(trimmed, letters.isSpace), letters);
    TrimmedStaysTrimmed(email, letters.isSpace);
  }
}
