/** How `naturalLanguageFilter` in controllers/stringController.js reads
    filters out of a query (lines 105-110) and narrows the records by them
    (lines 116-120). The query is not lower-cased; a pattern is found at its
    leftmost match. */
module ControllerLanguage {
  import opened Common
  import opened Text
  import opened Seqs
  import opened Analysis
  import opened Store
  import opened Api

  /** `\w`: an ASCII letter, a digit or the underscore. */
  predicate IsWordChar(c: char) {
    'a' <= c <= 'z' || 'A' <= c <= 'Z' || IsDigit(c) || c == '_'
  }

  const LetterLead := "containing the letter "

  /** `/containing the letter (\w)/` matches at position `k`. */
  predicate WordCharAt(s: string, k: nat) {
    LiteralAt(s, LetterLead, k) && k + |LetterLead| < |s| && IsWordChar(s[k + |LetterLead|])
  }

  function WordCharMatcher(s: string): nat -> bool {
    (k: nat) => WordCharAt(s, k)
  }

  /** The character captured by `/containing the letter (\w)/`, at its leftmost match. */
  function FindWordChar(s: string): Option<char> {
    var at := WordCharMatcher(s);
    assert forall k: nat :: at(k) == WordCharAt(s, k);
    match Leftmost(|s|, at, 0)
    case None => None
    case Some(k) => Some(s[k + |LetterLead|])
  }

  /** A character is captured exactly when the pattern matches; it is the
      `\w` character after the leftmost match of the lead. */
  lemma FindWordCharMeaning(s: string)
    ensures FindWordChar(s).None? <==> forall k: nat :: !WordCharAt(s, k)
    ensures FindWordChar(s).Some? ==> IsWordChar(FindWordChar(s).value)
    ensures forall k: nat ::
              WordCharAt(s, k) && (forall j: nat :: j < k ==> !WordCharAt(s, j))
              ==> FindWordChar(s) == Some(s[k + |LetterLead|])
  {
    var at := WordCharMatcher(s);
    assert forall k: nat :: at(k) == WordCharAt(s, k);
    LeftmostIsLeast(|s|, at);
  }

  /** The filters the controller reads out of `s`: "two word" overrides
      "single word"; "palindromic"; the numbers after "longer than " and
      "shorter than " as they are; the `\w` after "containing the letter ". */
  function ControllerInterpretation(s: string): Filters {
    Filters(
      if Includes(s, "palindromic") then Some(true) else None,
      FindNumberAfter(s, "longer than "),
      FindNumberAfter(s, "shorter than "),
      if Includes(s, "two word") then Some(2) else if Includes(s, "single word") then Some(1) else None,
      FindWordChar(s))
  }

  /** Lines 105-110, one rule after the other; a later rule for the same
      filter overwrites an earlier one. */
  method ReadControllerSentence(query: string) returns (parsed: Filters)
    ensures parsed == ControllerInterpretation(query)
  {
    var wordCount: Option<nat> := None;
    if Includes(query, "single word") {
      wordCount := Some(1);
    }
    if Includes(query, "two word") {
      wordCount := Some(2);
    }
    var isPalindrome: Option<bool> := None;
    if Includes(query, "palindromic") {
      isPalindrome := Some(true);
    }
    var minLength := FindNumberAfter(query, "longer than ");
    var maxLength := FindNumberAfter(query, "shorter than ");
    var containsCharacter := FindWordChar(query);
    parsed := Filters(isPalindrome, minLength, maxLength, wordCount, containsCharacter);
  }

  /** Each cue of the controller's grammar, and what it sets. */
  lemma ControllerCues(s: string)
    ensures ControllerInterpretation(s).wordCount == Some(2) <==> exists k: nat :: LiteralAt(s, "two word", k)
    ensures ControllerInterpretation(s).wordCount == Some(1)
        <==> (forall k: nat :: !LiteralAt(s, "two word", k)) && exists k: nat :: LiteralAt(s, "single word", k)
    ensures ControllerInterpretation(s).isPalindrome.Some? <==> exists k: nat :: LiteralAt(s, "palindromic", k)
    ensures ControllerInterpretation(s).minLength.None? <==> forall k: nat :: !NumberAt(s, "longer than ", k)
    ensures ControllerInterpretation(s).maxLength.None? <==> forall k: nat :: !NumberAt(s, "shorter than ", k)
    ensures ControllerInterpretation(s).containsCharacter.None? <==> forall k: nat :: !WordCharAt(s, k)
  {
    IncludesMeaning(s, "two word");
    IncludesMeaning(s, "single word");
    IncludesMeaning(s, "palindromic");
    FindNumberAfterMeaning(s, "longer than ");
    FindNumberAfterMeaning(s, "shorter than ");
    FindWordCharMeaning(s);
  }

  // -------------------------------------------------------------- narrowing

  /** A record passes the controller's reading of the filters: each filter
      that is truthy applies, the minimum strictly, the character as a
      substring; the maximum is never looked at. */
  predicate SentenceMatches(f: Filters, r: Record) {
    && (f.wordCount.Some? && f.wordCount.value != 0 ==> r.properties.wordCount == f.wordCount.value)
    && (f.isPalindrome == Some(true) ==> r.properties.isPalindrome)
    && (f.minLength.Some? && f.minLength.value != 0 ==> r.properties.length > f.minLength.value)
    && (f.containsCharacter.Some? ==> Includes(r.value, [f.containsCharacter.value]))
  }

  function SentenceMatcher(f: Filters): Record -> bool {
    (r: Record) => SentenceMatches(f, r)
  }

  /** The `i`-th step of lines 117-120, which holds when its filter is falsy. */
  predicate SentenceTest(f: Filters, i: nat, r: Record) {
    if i == 0 then f.wordCount.None? || f.wordCount.value == 0 || r.properties.wordCount == f.wordCount.value
    else if i == 1 then f.isPalindrome != Some(true) || r.properties.isPalindrome
    else if i == 2 then f.minLength.None? || f.minLength.value == 0 || r.properties.length > f.minLength.value
    else f.containsCharacter.None? || Includes(r.value, [f.containsCharacter.value])
  }

  predicate SentencePassesFirst(f: Filters, n: nat, r: Record) {
    n == 0 || (SentencePassesFirst(f, n - 1, r) && SentenceTest(f, n - 1, r))
  }

  lemma SentencePassesAll(f: Filters, r: Record)
    ensures SentencePassesFirst(f, 4, r) == SentenceMatches(f, r)
  {
    assert SentencePassesFirst(f, 1, r) == SentenceTest(f, 0, r);
    assert SentencePassesFirst(f, 2, r) == (SentencePassesFirst(f, 1, r) && SentenceTest(f, 1, r));
    assert SentencePassesFirst(f, 3, r) == (SentencePassesFirst(f, 2, r) && SentenceTest(f, 2, r));
  }

  function SentenceStage(f: Filters, n: nat): Record -> bool {
    (r: Record) => SentencePassesFirst(f, n, r)
  }

  function SentenceStep(f: Filters, i: nat): Record -> bool {
    (r: Record) => SentenceTest(f, i, r)
  }

  /** One `if (x) data = data.filter(...)` step: applied when its filter is
      truthy, it takes the records passing the first `n` steps to those
      passing the first `n + 1`. */
  method SentenceNarrow(records: seq<Record>, data: seq<Record>, f: Filters, n: nat, given: bool)
    returns (next: seq<Record>)
    requires data == Filter(records, SentenceStage(f, n))
    requires !given ==> forall r :: SentenceTest(f, n, r)
    ensures next == Filter(records, SentenceStage(f, n + 1))
  {
    next := data;
    if given {
      next := Filter(data, SentenceStep(f, n));
    }
    Narrowed(records, SentenceStage(f, n), given, SentenceStep(f, n), SentenceStage(f, n + 1));
  }

  /** Lines 116-120: the records, narrowed step by step. */
  method NarrowBySentence(records: seq<Record>, f: Filters) returns (data: seq<Record>)
    ensures data == Filter(records, SentenceMatcher(f))
  {
    data := records;
    FilterKeepsAll(records, SentenceStage(f, 0));
    data := SentenceNarrow(records, data, f, 0, f.wordCount.Some? && f.wordCount.value != 0);
    data := SentenceNarrow(records, data, f, 1, f.isPalindrome == Some(true));
    data := SentenceNarrow(records, data, f, 2, f.minLength.Some? && f.minLength.value != 0);
    data := SentenceNarrow(records, data, f, 3, f.containsCharacter.Some?);
    forall r | true
      ensures SentenceStage(f, 4)(r) == SentenceMatcher(f)(r)
    {
      SentencePassesAll(f, r);
    }
    FilterCongruent(records, SentenceStage(f, 4), SentenceMatcher(f));
  }

  /** "shorter than N" never narrows the list: the records are the same
      with the maximum as without it. */
  lemma ShorterThanNeverNarrows(records: seq<Record>, f: Filters)
    ensures Filter(records, SentenceMatcher(f)) == Filter(records, SentenceMatcher(f.(maxLength := None)))
  {
    forall r | r in records
      ensures SentenceMatcher(f)(r) == SentenceMatcher(f.(maxLength := None))(r)
    {
    }
    FilterCongruent(records, SentenceMatcher(f), SentenceMatcher(f.(maxLength := None)));
  }
}
