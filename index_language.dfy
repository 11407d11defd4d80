/** How /strings/filter-by-natural-language in index.js reads filters out of
    a sentence (index.js:242-285). Every rule looks at the lower-cased query;
    a pattern is found at its leftmost match, as `String.prototype.match`
    finds it. */
module IndexLanguage {
  import opened Common
  import opened Text
  import opened Api
  import opened Store
  import opened IndexFilters

  predicate IsLowerAlphanumeric(c: char) {
    'a' <= c <= 'z' || IsDigit(c)
  }

  /** `/letter\s+([a-z0-9])/` matches at position `k`: "letter", a run of
      whitespace, then a lower-case letter or digit. As the class excludes
      whitespace, the greedy run can only end at the first other character. */
  predicate LetterAt(s: string, k: nat) {
    && LiteralAt(s, "letter", k)
    && k + 6 < |s|
    && IsWhitespace(s[k + 6])
    && var e := SkipWhitespace(s, k + 6); e < |s| && IsLowerAlphanumeric(s[e])
  }

  /** The positions at which `/letter\s+([a-z0-9])/` matches. */
  function LetterMatcher(s: string): nat -> bool {
    (k: nat) => LetterAt(s, k)
  }

  /** The character captured by `/letter\s+([a-z0-9])/`, at its leftmost match. */
  function FindLetter(s: string): Option<char> {
    var at := LetterMatcher(s);
    assert forall k: nat :: at(k) == LetterAt(s, k);
    match Leftmost(|s|, at, 0)
    case None => None
    case Some(k) => Some(s[SkipWhitespace(s, k + 6)])
  }

  /** A character is found exactly when the pattern matches somewhere; it is
      the lower-case letter or digit after the leftmost match's whitespace. */
  lemma FindLetterMeaning(s: string)
    ensures FindLetter(s).None? <==> forall k: nat :: !LetterAt(s, k)
    ensures FindLetter(s).Some? ==> IsLowerAlphanumeric(FindLetter(s).value)
    ensures forall k: nat ::
              LetterAt(s, k) && (forall j: nat :: j < k ==> !LetterAt(s, j))
              ==> FindLetter(s) == Some(s[SkipWhitespace(s, k + 6)])
  {
    var at := LetterMatcher(s);
    assert forall k: nat :: at(k) == LetterAt(s, k);
    LeftmostIsLeast(|s|, at);
  }

  /** "single word", else "single-word": one word. */
  function WordCountCue(s: string): Option<nat> {
    if Includes(s, "single word") then Some(1)
    else if Includes(s, "single-word") then Some(1)
    else None
  }

  /** "palindrom": palindromes only. */
  function PalindromeCue(s: string): Option<bool> {
    if Includes(s, "palindrom") then Some(true) else None
  }

  /** "longer than N": a minimum length of N + 1. */
  function LongerThanCue(s: string): Option<nat> {
    match FindNumberAfter(s, "longer than ")
    case None => None
    case Some(n) => Some(n + 1)
  }

  /** "shorter than N": a maximum length of N - 1, but never below zero. */
  function ShorterThanCue(s: string): Option<nat> {
    match FindNumberAfter(s, "shorter than ")
    case None => None
    case Some(n) => Some(if n == 0 then 0 else n - 1)
  }

  /** "letter X", and "first vowel" for an 'a' when no letter was named. */
  function CharacterCue(s: string): Option<char> {
    var letter := FindLetter(s);
    if Includes(s, "first vowel") && letter.None? then Some('a') else letter
  }

  /** The filters read out of the lower-cased query `s`. */
  function Interpretation(s: string): Filters {
    Filters(PalindromeCue(s), LongerThanCue(s), ShorterThanCue(s), WordCountCue(s), CharacterCue(s))
  }

  /** A query is understood when at least one cue occurs in it. */
  lemma Understood(s: string)
    ensures !NoFilters(Interpretation(s)) <==>
      || Includes(s, "single word") || Includes(s, "single-word") || Includes(s, "palindrom")
      || (exists k: nat :: NumberAt(s, "longer than ", k))
      || (exists k: nat :: NumberAt(s, "shorter than ", k))
      || (exists k: nat :: LetterAt(s, k))
      || Includes(s, "first vowel")
  {
    FindNumberAfterMeaning(s, "longer than ");
    FindNumberAfterMeaning(s, "shorter than ");
    FindLetterMeaning(s);
  }

  /** "longer than N" keeps strings of more than N characters. */
  lemma LongerThanIsLonger(s: string, n: nat, r: Record)
    requires FindNumberAfter(s, "longer than ") == Some(n)
    requires Matches(Interpretation(s), r)
    ensures r.properties.length > n
  {
  }

  /** "shorter than N" keeps strings of fewer than N characters, except that
      "shorter than 0" keeps the empty string. */
  lemma ShorterThanIsShorter(s: string, n: nat, r: Record)
    requires FindNumberAfter(s, "shorter than ") == Some(n)
    requires Matches(Interpretation(s), r)
    ensures r.properties.length < n || (n == 0 && r.properties.length == 0)
  {
  }

  /** The character filter is always a lower-case letter or a digit. */
  lemma CharacterIsLowerAlphanumeric(s: string)
    requires Interpretation(s).containsCharacter.Some?
    ensures IsLowerAlphanumeric(Interpretation(s).containsCharacter.value)
  {
    FindLetterMeaning(s);
  }

  /** Queries that differ only in letter case are read alike. */
  lemma CaseIsIgnored(q1: string, q2: string)
    requires EqualsIgnoringCase(q1, q2)
    ensures Interpretation(Lower(q1)) == Interpretation(Lower(q2))
  {
    assert Lower(q1) == Lower(q2);
  }

  /** After a prefix without an 'l', "letter", a space and the character `c`:
      the character found is `c`. */
  lemma FirstLetter(prefix: string, c: char, rest: string)
    requires 'l' !in prefix && IsLowerAlphanumeric(c)
    ensures FindLetter(prefix + ("letter" + ([' '] + ([c] + rest)))) == Some(c)
  {
    var tail := [' '] + ([c] + rest);
    var s := prefix + ("letter" + tail);
    var k := |prefix|;
    assert s[k..k + 6] == "letter";
    assert s[k + 6] == ' ' && s[k + 7] == c;
    assert SkipWhitespace(s, k + 7) == k + 7;
    assert LetterAt(s, k);
    forall j: nat | j < k
      ensures !LetterAt(s, j)
    {
      assert s[j] == prefix[j];
    }
    FindLetterMeaning(s);
  }

  /** "strings longer than 10 characters" asks for at least 11 characters. */
  lemma LongerThanTen()
    ensures LongerThanCue("strings longer than 10 characters") == Some(11)
  {
    var s := "strings longer than 10 characters";
    assert s == "strings " + "longer than " + ("10" + " characters");
    FirstNumber("strings ", "longer than ", "10", " characters");
    DecimalTen();
  }

  lemma DecimalTen()
    ensures DecimalValue("10") == 10
  {
    assert "10"[..1] == "1";
  }

  /** "strings containing the letter z" asks for a 'z'. */
  lemma LetterZ()
    ensures CharacterCue("strings containing the letter z") == Some('z')
  {
    var s := "strings containing the letter z";
    assert s == "strings containing the " + ("letter" + ([' '] + (['z'] + [])));
    FirstLetter("strings containing the ", 'z', []);
  }

  /** "all single word palindromic strings" asks for one-word palindromes. */
  lemma SingleWordPalindromic()
    ensures WordCountCue("all single word palindromic strings") == Some(1)
    ensures PalindromeCue("all single word palindromic strings") == Some(true)
  {
    var s := "all single word palindromic strings";
    assert s == "all " + "single word" + " " + "palindrom" + "ic strings";
    assert s[4..15] == "single word";
    assert LiteralAt(s, "single word", 4);
    assert s[16..25] == "palindrom";
    assert LiteralAt(s, "palindrom", 16);
    IncludesMeaning(s, "single word");
    IncludesMeaning(s, "palindrom");
  }
}
