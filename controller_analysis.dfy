/** The analyser of controllers/stringController.js, `analyze`: the same
    properties as `analyzeStringValue`, with the word count written as
    `value.trim().split(/\s+/).filter(Boolean).length`, packed into the
    record the controller stores. */
module ControllerAnalysis {
  import opened Text
  import opened Seqs
  import opened Analysis
  import opened Store

  /** `Boolean` as a predicate on strings: the string is not empty. */
  function NonEmptyWord(): string -> bool {
    (w: string) => w != []
  }

  /** The controller's word count: the non-empty pieces of the trimmed value. */
  function ControllerWordCount(s: string): nat {
    |Filter(SplitWhitespace(Trim(s)), NonEmptyWord())|
  }

  /** Dropping the empty pieces counts the words as `analyzeStringValue`
      does, blank strings included: the only empty piece a trimmed string
      can split into is the single piece of the empty string. */
  lemma WordCountsAgree(s: string)
    ensures ControllerWordCount(s) == WordCount(s)
  {
    var t := Trim(s);
    TrimBlank(s);
    if t == [] {
      EmptyPieceDropped();
    } else {
      NoEmptyPieces(t);
    }
  }

  /** The empty string splits into one empty piece, which `Boolean` drops. */
  lemma EmptyPieceDropped()
    ensures Filter(SplitWhitespace([]), NonEmptyWord()) == []
  {
    assert SplitWhitespace([]) == [[]];
    assert Filter([[]], NonEmptyWord()) == Filter([[]][1..], NonEmptyWord());
  }

  /** A string with no whitespace at either end splits into non-empty
      pieces only, all of which `Boolean` keeps. */
  lemma NoEmptyPieces(t: string)
    requires t != [] && !IsWhitespace(t[0]) && !IsWhitespace(t[|t| - 1])
    ensures Filter(SplitWhitespace(t), NonEmptyWord()) == SplitWhitespace(t)
  {
    SplitPiecesNonEmpty(t);
    FilterKeepsAll(SplitWhitespace(t), NonEmptyWord());
  }

  /** `analyze(value)`, with `createdAt` for the clock reading: the record
      is stored under the digest of its value and carries the value
      unchanged, with the properties `analyzeStringValue` computes. */
  method AnalyzeRecord(hash: string -> Digest, value: string, createdAt: string) returns (record: Record)
    ensures record == Record(hash(value), value, Analyze(hash, value), createdAt)
    ensures record.id == record.properties.sha256Hash
  {
    var sha := hash(value);
    var length := |value|;
    var lowered := Lower(value);
    var isPalindrome := lowered == Reverse(lowered);
    var uniqueCharacters := |CharSet(value)|;
    var wordCount := ControllerWordCount(value);
    var frequencies := CountCharacters(value);
    assert frequencies == Frequencies(value);
    WordCountsAgree(value);
    record := Record(sha, value, Properties(length, isPalindrome, uniqueCharacters, wordCount, sha, frequencies), createdAt);
  }
}
