/** The checking analyser of utils/analyzer.js (`analyzeString`): it refuses
    anything but a non-blank string and otherwise computes the same
    properties as the analyser in module `Analysis`. */
module CheckedAnalyzer {
  import opened Common
  import opened Text
  import opened Js
  import opened Analysis

  const InvalidInput := "Invalid input: value must be a non-empty string"

  /** `analyzeString(value)`: the thrown error becomes `Failure`. */
  method AnalyzeString(hash: string -> Digest, value: JsValue) returns (r: Result<Properties, string>)
    ensures r.Failure? <==> !value.JsString? || IsBlank(value.s)
    ensures r.Failure? ==> r.error == InvalidInput
    ensures r.Success? ==> r.value == Analyze(hash, value.s) && r.value.wordCount >= 1
  {
    if !value.JsString? {
      return Failure(InvalidInput);
    }
    TrimBlank(value.s);
    if Trim(value.s) == [] {
      return Failure(InvalidInput);
    }
    var p := Measure(hash, value.s);
    r := Success(p);
  }

  /** The body of `analyzeString` past its guard. Its word count is
      `value.trim().split(/\s+/).length` with no blank case, which the guard
      makes equal to the other analyser's. */
  method Measure(hash: string -> Digest, s: string) returns (p: Properties)
    requires !IsBlank(s)
    ensures p == Analyze(hash, s) && p.wordCount >= 1
  {
    TrimBlank(s);
    var lowered := Lower(s);
    var isPalindrome := lowered == Reverse(lowered);
    var wordCount := |SplitWhitespace(Trim(s))|;
    var frequencies := CountCharacters(s);
    assert frequencies == Frequencies(s);
    assert isPalindrome == IsPalindrome(s);
    assert wordCount == WordCount(s);
    p := Properties(|s|, isPalindrome, |CharSet(s)|, wordCount, hash(s), frequencies);
  }
}
