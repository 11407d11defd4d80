/** The filtering half of index.js: how GET /strings validates its query
    parameters into typed filters (index.js:141-187), how
    /strings/filter-by-natural-language reads filters out of a sentence
    (index.js:242-285), and the chain of `results.filter(...)` calls both
    endpoints then apply (index.js:189-206 and 300-316). */
module IndexFilters {
  import opened Common
  import opened Text
  import opened Js
  import opened Seqs
  import opened Analysis
  import opened Store
  import opened Api

  // ---------------------------------------------------------------- matching

  /** A record passes the filters: each given filter holds of its properties.
      `contains_character` is looked up among the keys of the frequency map. */
  predicate Matches(f: Filters, r: Record) {
    && (f.isPalindrome.Some? ==> r.properties.isPalindrome == f.isPalindrome.value)
    && (f.minLength.Some? ==> r.properties.length >= f.minLength.value)
    && (f.maxLength.Some? ==> r.properties.length <= f.maxLength.value)
    && (f.wordCount.Some? ==> r.properties.wordCount == f.wordCount.value)
    && (f.containsCharacter.Some? ==> f.containsCharacter.value in r.properties.characterFrequencyMap)
  }

  function Matcher(f: Filters): Record -> bool {
    (r: Record) => Matches(f, r)
  }

  /** The `i`-th filter of the chain, which holds when that filter is absent. */
  predicate Test(f: Filters, i: nat, r: Record) {
    if i == 0 then f.isPalindrome.None? || r.properties.isPalindrome == f.isPalindrome.value
    else if i == 1 then f.minLength.None? || r.properties.length >= f.minLength.value
    else if i == 2 then f.maxLength.None? || r.properties.length <= f.maxLength.value
    else if i == 3 then f.wordCount.None? || r.properties.wordCount == f.wordCount.value
    else f.containsCharacter.None? || f.containsCharacter.value in r.properties.characterFrequencyMap
  }

  /** The first `n` filters of the chain all hold. */
  predicate PassesFirst(f: Filters, n: nat, r: Record) {
    n == 0 || (PassesFirst(f, n - 1, r) && Test(f, n - 1, r))
  }

  /** Passing the whole chain is passing the filters. */
  lemma PassesAll(f: Filters, r: Record)
    ensures PassesFirst(f, 5, r) == Matches(f, r)
  {
    assert PassesFirst(f, 1, r) == Test(f, 0, r);
    assert PassesFirst(f, 2, r) == (PassesFirst(f, 1, r) && Test(f, 1, r));
    assert PassesFirst(f, 3, r) == (PassesFirst(f, 2, r) && Test(f, 2, r));
    assert PassesFirst(f, 4, r) == (PassesFirst(f, 3, r) && Test(f, 3, r));
  }

  function Stage(f: Filters, n: nat): Record -> bool {
    (r: Record) => PassesFirst(f, n, r)
  }

  /** The `i`-th filter alone, as the predicate handed to `filter`. */
  function Step(f: Filters, i: nat): Record -> bool {
    (r: Record) => Test(f, i, r)
  }

  /** One `if (filters.x !== undefined) results = results.filter(...)`
      step: applied when its filter is `given`, it takes the records
      passing the first `n` filters to those passing the first `n + 1`. */
  method Narrow(records: seq<Record>, results: seq<Record>, f: Filters, n: nat, given: bool)
    returns (next: seq<Record>)
    requires results == Filter(records, Stage(f, n))
    requires !given ==> forall r :: Test(f, n, r)
    ensures next == Filter(records, Stage(f, n + 1))
  {
    next := results;
    if given {
      next := Filter(results, Step(f, n));
    }
    Narrowed(records, Stage(f, n), given, Step(f, n), Stage(f, n + 1));
  }

  /** The chain of `filter` calls: it keeps, in store order, exactly the
      records that pass every filter. */
  method ApplyFilters(records: seq<Record>, f: Filters) returns (results: seq<Record>)
    ensures results == Filter(records, Matcher(f))
  {
    results := records;
    FilterKeepsAll(records, Stage(f, 0));
    results := Narrow(records, results, f, 0, f.isPalindrome.Some?);
    results := Narrow(records, results, f, 1, f.minLength.Some?);
    results := Narrow(records, results, f, 2, f.maxLength.Some?);
    results := Narrow(records, results, f, 3, f.wordCount.Some?);
    results := Narrow(records, results, f, 4, f.containsCharacter.Some?);
    forall r | true
      ensures Stage(f, 5)(r) == Matcher(f)(r)
    {
      PassesAll(f, r);
    }
    FilterCongruent(records, Stage(f, 5), Matcher(f));
  }

  // -------------------------------------------------------------- validation

  const InvalidPalindrome := "Invalid query parameter \"is_palindrome\" (must be true or false)"
  const InvalidCharacter := "Invalid query parameter \"contains_character\" (must be a single character)"
  const MinAboveMax := "\"min_length\" cannot be greater than \"max_length\""

  function InvalidLength(name: string): string {
    "Invalid query parameter \"" + name + "\" (must be non-negative integer)"
  }

  /** `is_palindrome`: absent, or "true"/"false" in any case. */
  function PalindromeParam(v: JsValue): (r: Result<Option<bool>, string>)
    ensures r.Failure? <==> !v.JsUndefined? && ParseBooleanParam(v).None?
    ensures r.Failure? ==> r.error == InvalidPalindrome
    ensures r.Success? ==> r.value == ParseBooleanParam(v)
  {
    if v.JsUndefined? then Success(None)
    else
      match ParseBooleanParam(v)
      case None => Failure(InvalidPalindrome)
      case Some(b) => Success(Some(b))
  }

  /** `min_length`, `max_length`, `word_count`: absent, or text that
      `parseInt(_, 10)` reads as a number that is not negative. */
  function LengthParam(v: JsValue, name: string): (r: Result<Option<nat>, string>)
    ensures r.Failure? <==> !v.JsUndefined? && (ParseInt(v, false).None? || ParseInt(v, false).value < 0)
    ensures r.Failure? ==> r.error == InvalidLength(name)
    ensures r.Success? && r.value.Some? ==> ParseInt(v, false) == Some(r.value.value as int)
    ensures r.Success? ==> (r.value.None? <==> v.JsUndefined?)
  {
    if v.JsUndefined? then Success(None)
    else
      match ParseInt(v, false)
      case None => Failure(InvalidLength(name))
      case Some(n) => if n < 0 then Failure(InvalidLength(name)) else Success(Some(n))
  }

  /** `contains_character`: absent, or a string of exactly one character. */
  function CharacterParam(v: JsValue): (r: Result<Option<char>, string>)
    ensures r.Failure? <==> !v.JsUndefined? && !(v.JsString? && |v.s| == 1)
    ensures r.Failure? ==> r.error == InvalidCharacter
    ensures r.Success? ==> (r.value.None? <==> v.JsUndefined?)
    ensures r.Success? && r.value.Some? ==> v == JsString([r.value.value])
  {
    if v.JsUndefined? then Success(None)
    else if v.JsString? && |v.s| == 1 then Success(Some(v.s[0]))
    else Failure(InvalidCharacter)
  }

  /** The typed filters of a GET /strings query, or the message of its 400
      reply: the parameters are checked in a fixed order and the first bad
      one is reported; then a minimum above the maximum is refused. Any
      other parameter is ignored. */
  function ValidateQuery(q: Query): Result<Filters, string> {
    var palindrome := PalindromeParam(Param(q, "is_palindrome"));
    var minLength := LengthParam(Param(q, "min_length"), "min_length");
    var maxLength := LengthParam(Param(q, "max_length"), "max_length");
    var wordCount := LengthParam(Param(q, "word_count"), "word_count");
    var character := CharacterParam(Param(q, "contains_character"));
    if palindrome.Failure? then Failure(palindrome.error)
    else if minLength.Failure? then Failure(minLength.error)
    else if maxLength.Failure? then Failure(maxLength.error)
    else if wordCount.Failure? then Failure(wordCount.error)
    else if character.Failure? then Failure(character.error)
    else
      var f := Filters(palindrome.value, minLength.value, maxLength.value, wordCount.value, character.value);
      if Conflicting(f) then Failure(MinAboveMax) else Success(f)
  }

  /** The query string a client writes for the filters `f`: each given
      filter as its text, the others left out. */
  function EncodeFilters(f: Filters): Query {
    var q0: Query := map[];
    var q1 := if f.isPalindrome.Some? then q0["is_palindrome" := JsString(if f.isPalindrome.value then "true" else "false")] else q0;
    var q2 := if f.minLength.Some? then q1["min_length" := JsString(NatDecimal(f.minLength.value))] else q1;
    var q3 := if f.maxLength.Some? then q2["max_length" := JsString(NatDecimal(f.maxLength.value))] else q2;
    var q4 := if f.wordCount.Some? then q3["word_count" := JsString(NatDecimal(f.wordCount.value))] else q3;
    if f.containsCharacter.Some? then q4["contains_character" := JsString([f.containsCharacter.value])] else q4
  }

  /** The query text `EncodeFilters` writes for each filter. */
  lemma EncodedParams(f: Filters)
    ensures Param(EncodeFilters(f), "is_palindrome")
         == if f.isPalindrome.Some? then JsString(if f.isPalindrome.value then "true" else "false") else JsUndefined
    ensures Param(EncodeFilters(f), "min_length") == NumberText(f.minLength)
    ensures Param(EncodeFilters(f), "max_length") == NumberText(f.maxLength)
    ensures Param(EncodeFilters(f), "word_count") == NumberText(f.wordCount)
    ensures Param(EncodeFilters(f), "contains_character")
         == if f.containsCharacter.Some? then JsString([f.containsCharacter.value]) else JsUndefined
  {
  }

  /** A count given as a query parameter, or the parameter left out. */
  function NumberText(n: Option<nat>): JsValue {
    if n.Some? then JsString(NatDecimal(n.value)) else JsUndefined
  }

  /** A count written in decimal is read back by `parseInt(_, 10)`. */
  lemma ParseDecimal(n: nat)
    ensures ParseInt(JsString(NatDecimal(n)), false) == Some(n)
  {
    ParseIntOfNumber(n, false);
    assert ToJsString(JsNumber(n)) == NatDecimal(n);
  }

  lemma LengthParamOfDecimal(n: Option<nat>, name: string)
    ensures LengthParam(NumberText(n), name) == Success(n)
  {
    if n.Some? {
      ParseDecimal(n.value);
    }
  }

  /** Every consistent set of filters, written as a query, is accepted and
      read back as the same filters. */
  lemma ValidateEncoded(f: Filters)
    requires !Conflicting(f)
    ensures ValidateQuery(EncodeFilters(f)) == Success(f)
  {
    var q := EncodeFilters(f);
    EncodedParams(f);
    LengthParamOfDecimal(f.minLength, "min_length");
    LengthParamOfDecimal(f.maxLength, "max_length");
    LengthParamOfDecimal(f.wordCount, "word_count");
    assert PalindromeParam(Param(q, "is_palindrome")) == Success(f.isPalindrome);
    assert CharacterParam(Param(q, "contains_character")) == Success(f.containsCharacter);
  }
}
