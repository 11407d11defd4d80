/** The string analyser: `analyzeStringValue` and `parseBooleanParam` of
    utils/analyzeString.js. index.js carries a character-for-character copy of
    both, which this one module stands for. */
module Analysis {
  import opened Common
  import opened Text
  import opened Js

  /** A content digest (the hexadecimal SHA-256 of a string). The digest
      function is not modelled: operations take it as a parameter `hash`, so
      equal strings always get equal digests and nothing more is taken for granted. */
  type Digest = string

  /** The property record computed for a string. */
  datatype Properties = Properties(
    length: nat,
    isPalindrome: bool,
    uniqueCharacters: nat,
    wordCount: nat,
    sha256Hash: Digest,
    characterFrequencyMap: map<char, nat>)

  /** The distinct characters of `s`, as `new Set(s)` collects them. */
  function CharSet(s: string): set<char> {
    set c | c in s
  }

  /** Each character of `s`, mapped to its number of occurrences. */
  function Frequencies(s: string): map<char, nat> {
    map c | c in s :: multiset(s)[c]
  }

  /** The case-folded string reads the same backwards; nothing is stripped. */
  predicate IsPalindrome(s: string) {
    var lowered := Lower(s);
    lowered == Reverse(lowered)
  }

  /** `trimmed === '' ? 0 : trimmed.split(/\s+/).length`. */
  function WordCount(s: string): nat {
    var trimmed := Trim(s);
    if trimmed == [] then 0 else |SplitWhitespace(trimmed)|
  }

  /** What `analyzeStringValue(value)` returns, with `hash` for `sha256`. */
  function Analyze(hash: string -> Digest, value: string): Properties {
    Properties(|value|, IsPalindrome(value), |CharSet(value)|, WordCount(value), hash(value), Frequencies(value))
  }

  /** Appending a character adds one to its count, or gives it count one. */
  lemma FrequenciesSnoc(s: string, c: char)
    ensures Frequencies(s + [c]) == Frequencies(s)[c := (if c in Frequencies(s) then Frequencies(s)[c] else 0) + 1]
  {
    var m, m' := Frequencies(s), Frequencies(s + [c]);
    assert multiset(s + [c]) == multiset(s) + multiset{c};
    assert m'.Keys == m.Keys + {c};
  }

  /** The `for (const ch of value)` loop that fills `character_frequency_map`. */
  method CountCharacters(value: string) returns (m: map<char, nat>)
    ensures m.Keys == CharSet(value)
    ensures forall c :: c in m ==> m[c] == multiset(value)[c]
  {
    m := map[];
    for i := 0 to |value|
      invariant m == Frequencies(value[..i])
    {
      var ch := value[i];
      FrequenciesSnoc(value[..i], ch);
      assert value[..i + 1] == value[..i] + [ch];
      m := m[ch := (if ch in m then m[ch] else 0) + 1];
    }
    assert value[..|value|] == value;
  }

  /** `analyzeStringValue`. */
  method AnalyzeStringValue(hash: string -> Digest, value: string) returns (p: Properties)
    ensures p == Analyze(hash, value)
  {
    var length := |value|;
    var lowered := Lower(value);
    var isPalindrome := lowered == Reverse(lowered);
    var uniqueCharacters := |CharSet(value)|;
    var trimmed := Trim(value);
    var wordCount := if trimmed == [] then 0 else |SplitWhitespace(trimmed)|;
    var sha := hash(value);
    var frequencies := CountCharacters(value);
    assert frequencies == Frequencies(value);
    p := Properties(length, isPalindrome, uniqueCharacters, wordCount, sha, frequencies);
  }

  /** A string is a palindrome exactly when each character matches, up to
      case, the one at the mirrored position. */
  lemma PalindromeIsMirrored(s: string)
    ensures IsPalindrome(s) <==> forall i :: 0 <= i < |s| ==> LowerChar(s[i]) == LowerChar(s[|s| - 1 - i])
  {
    var lowered := Lower(s);
    if forall i :: 0 <= i < |s| ==> LowerChar(s[i]) == LowerChar(s[|s| - 1 - i]) {
      assert forall i :: 0 <= i < |s| ==> lowered[i] == Reverse(lowered)[i];
    }
  }

  /** Spaces are compared like any other character: "A man a man" is not a
      palindrome although its letters alone would be. */
  lemma SpacesAreNotStripped()
    ensures !IsPalindrome("A man a man")
  {
    PalindromeIsMirrored("A man a man");
    assert LowerChar("A man a man"[1]) != LowerChar("A man a man"[9]);
  }

  /** "level" is a palindrome. */
  lemma LevelIsPalindrome()
    ensures IsPalindrome("level")
  {
    PalindromeIsMirrored("level");
  }

  /** "level" is one word. */
  lemma LevelIsOneWord()
    ensures WordCount("level") == 1
  {
    var s := "level";
    assert forall i :: 0 <= i < |s| ==> !IsWhitespace(s[i]);
    assert Trim(s) == s;
    SplitWithoutWhitespace(s);
  }

  /** The word count is zero exactly for blank strings, and at least one
      otherwise. */
  lemma WordCountOfBlank(s: string)
    ensures WordCount(s) == 0 <==> IsBlank(s)
    ensures !IsBlank(s) ==> WordCount(s) >= 1
  {
    TrimBlank(s);
  }

  /** The sum of the counts of a frequency map. */
  ghost function SumOfCounts(m: map<char, nat>): nat
    decreases |m|
  {
    if m == map[] then 0
    else
      var c :| c in m;
      assert |m - {c}| < |m| by { assert (m - {c}).Keys == m.Keys - {c}; }
      m[c] + SumOfCounts(m - {c})
  }

  lemma {:induction false} SumOfCountsRemove(m: map<char, nat>, c: char)
    requires c in m
    ensures SumOfCounts(m) == m[c] + SumOfCounts(m - {c})
    decreases |m|
  {
    var d :| d in m && SumOfCounts(m) == m[d] + SumOfCounts(m - {d});
    if d != c {
      assert (m - {d}).Keys == m.Keys - {d};
      assert (m - {c}).Keys == m.Keys - {c};
      SumOfCountsRemove(m - {d}, c);
      SumOfCountsRemove(m - {c}, d);
      assert m - {d} - {c} == m - {c} - {d};
    }
  }

  /** Counting one more `c` adds one to the sum of the counts. */
  lemma SumOfCountsBump(m: map<char, nat>, c: char)
    ensures SumOfCounts(m[c := (if c in m then m[c] else 0) + 1]) == SumOfCounts(m) + 1
  {
    var m' := m[c := (if c in m then m[c] else 0) + 1];
    SumOfCountsRemove(m', c);
    if c in m {
      SumOfCountsRemove(m, c);
      assert m' - {c} == m - {c};
    } else {
      assert m' - {c} == m;
    }
  }

  /** The counts of the frequency map add up to the length of the string. */
  lemma {:induction false} FrequenciesSumToLength(s: string)
    ensures SumOfCounts(Frequencies(s)) == |s|
    decreases |s|
  {
    if s == [] {
      assert Frequencies(s) == map[];
    } else {
      var p, c := s[..|s| - 1], s[|s| - 1];
      assert s == p + [c];
      FrequenciesSumToLength(p);
      FrequenciesSnoc(p, c);
      SumOfCountsBump(Frequencies(p), c);
    }
  }

  /** `unique_characters` is the number of keys of the frequency map, and
      the map's counts add up to `length`. */
  lemma UniqueCharactersAreKeys(hash: string -> Digest, s: string)
    ensures Analyze(hash, s).uniqueCharacters == |Analyze(hash, s).characterFrequencyMap.Keys|
    ensures SumOfCounts(Analyze(hash, s).characterFrequencyMap) == Analyze(hash, s).length
  {
    assert Frequencies(s).Keys == CharSet(s);
    FrequenciesSumToLength(s);
  }

  /** `parseBooleanParam`: true for "true" and false for "false" in any
      case, `None` (undefined) for any other string and any non-string. */
  function ParseBooleanParam(val: JsValue): (r: Option<bool>)
    ensures r == Some(true) <==> val.JsString? && EqualsIgnoringCase(val.s, "true")
    ensures r == Some(false) <==> val.JsString? && EqualsIgnoringCase(val.s, "false")
    ensures r.None? <==> !val.JsString? || !(EqualsIgnoringCase(val.s, "true") || EqualsIgnoringCase(val.s, "false"))
  {
    if val.JsUndefined? then None
    else if !val.JsString? then None
    else
      var lower := Lower(val.s);
      if lower == "true" then Some(true)
      else if lower == "false" then Some(false)
      else None
  }
}
