/** The filtering of GET /strings in controllers/stringController.js
    (lines 57-78): no validation, only a refusal when no filter parameter is
    given; each parameter that is present (`is_palindrome`) or truthy (the
    others) narrows the records, read with `parseInt` without a radix and
    with a substring test for the character. */
module ControllerFilters {
  import opened Common
  import opened Text
  import opened Js
  import opened Seqs
  import opened Analysis
  import opened Store
  import opened Api
  import opened IndexFilters

  /** `is_palindrome === undefined && !min_length && !max_length && !word_count && !contains_character`. */
  predicate NoParameters(q: Query) {
    && Param(q, "is_palindrome").JsUndefined?
    && !Truthy(Param(q, "min_length"))
    && !Truthy(Param(q, "max_length"))
    && !Truthy(Param(q, "word_count"))
    && !Truthy(Param(q, "contains_character"))
  }

  /** `x >= parseInt(v)`, `x <= parseInt(v)`, `x === parseInt(v)`: each is
      false when `parseInt` gives NaN. */
  predicate AtLeast(x: nat, v: JsValue) {
    var n := ParseInt(v, true); n.Some? && x >= n.value
  }

  predicate AtMost(x: nat, v: JsValue) {
    var n := ParseInt(v, true); n.Some? && x <= n.value
  }

  predicate SameNumber(x: nat, v: JsValue) {
    var n := ParseInt(v, true); n.Some? && x == n.value
  }

  /** A record passes the query: the palindrome flag equals
      `is_palindrome === 'true'`, the length and word count compare with the
      numbers read, and the value contains the character text. */
  predicate QueryMatches(q: Query, r: Record) {
    var p, lo, hi, wc, cc := Param(q, "is_palindrome"), Param(q, "min_length"),
      Param(q, "max_length"), Param(q, "word_count"), Param(q, "contains_character");
    && (!p.JsUndefined? ==> r.properties.isPalindrome == (p == JsString("true")))
    && (Truthy(lo) ==> AtLeast(r.properties.length, lo))
    && (Truthy(hi) ==> AtMost(r.properties.length, hi))
    && (Truthy(wc) ==> SameNumber(r.properties.wordCount, wc))
    && (Truthy(cc) ==> Includes(r.value, ToJsString(cc)))
  }

  function QueryMatcher(q: Query): Record -> bool {
    (r: Record) => QueryMatches(q, r)
  }

  /** The `i`-th step of the chain, which holds when its parameter is not given. */
  predicate QueryTest(q: Query, i: nat, r: Record) {
    if i == 0 then
      var p := Param(q, "is_palindrome"); p.JsUndefined? || r.properties.isPalindrome == (p == JsString("true"))
    else if i == 1 then
      var lo := Param(q, "min_length"); !Truthy(lo) || AtLeast(r.properties.length, lo)
    else if i == 2 then
      var hi := Param(q, "max_length"); !Truthy(hi) || AtMost(r.properties.length, hi)
    else if i == 3 then
      var wc := Param(q, "word_count"); !Truthy(wc) || SameNumber(r.properties.wordCount, wc)
    else
      var cc := Param(q, "contains_character"); !Truthy(cc) || Includes(r.value, ToJsString(cc))
  }

  /** The first `n` steps of the chain all hold. */
  predicate QueryPassesFirst(q: Query, n: nat, r: Record) {
    n == 0 || (QueryPassesFirst(q, n - 1, r) && QueryTest(q, n - 1, r))
  }

  lemma QueryPassesAll(q: Query, r: Record)
    ensures QueryPassesFirst(q, 5, r) == QueryMatches(q, r)
  {
    assert QueryPassesFirst(q, 1, r) == QueryTest(q, 0, r);
    assert QueryPassesFirst(q, 2, r) == (QueryPassesFirst(q, 1, r) && QueryTest(q, 1, r));
    assert QueryPassesFirst(q, 3, r) == (QueryPassesFirst(q, 2, r) && QueryTest(q, 2, r));
    assert QueryPassesFirst(q, 4, r) == (QueryPassesFirst(q, 3, r) && QueryTest(q, 3, r));
  }

  function QueryStage(q: Query, n: nat): Record -> bool {
    (r: Record) => QueryPassesFirst(q, n, r)
  }

  function QueryStep(q: Query, i: nat): Record -> bool {
    (r: Record) => QueryTest(q, i, r)
  }

  /** One `if (x) data = data.filter(...)` step: applied when its parameter
      is `given`, it takes the records passing the first `n` steps to those
      passing the first `n + 1`. */
  method QueryNarrow(records: seq<Record>, data: seq<Record>, q: Query, n: nat, given: bool)
    returns (next: seq<Record>)
    requires data == Filter(records, QueryStage(q, n))
    requires !given ==> forall r :: QueryTest(q, n, r)
    ensures next == Filter(records, QueryStage(q, n + 1))
  {
    next := data;
    if given {
      next := Filter(data, QueryStep(q, n));
    }
    Narrowed(records, QueryStage(q, n), given, QueryStep(q, n), QueryStage(q, n + 1));
  }

  /** The chain of lines 67-71: it keeps, in store order, exactly the
      records that pass the query. */
  method FilterByQuery(records: seq<Record>, q: Query) returns (data: seq<Record>)
    ensures data == Filter(records, QueryMatcher(q))
  {
    data := records;
    FilterKeepsAll(records, QueryStage(q, 0));
    data := QueryNarrow(records, data, q, 0, !Param(q, "is_palindrome").JsUndefined?);
    data := QueryNarrow(records, data, q, 1, Truthy(Param(q, "min_length")));
    data := QueryNarrow(records, data, q, 2, Truthy(Param(q, "max_length")));
    data := QueryNarrow(records, data, q, 3, Truthy(Param(q, "word_count")));
    data := QueryNarrow(records, data, q, 4, Truthy(Param(q, "contains_character")));
    forall r | true
      ensures QueryStage(q, 5)(r) == QueryMatcher(q)(r)
    {
      QueryPassesAll(q, r);
    }
    FilterCongruent(records, QueryStage(q, 5), QueryMatcher(q));
  }

  // ------------------------------------------------- agreement with index.js

  /** The record carries the frequency map of its own value, as every
      record either server stores does. */
  predicate Counted(r: Record) {
    r.properties.characterFrequencyMap == Frequencies(r.value)
  }

  /** A count written in decimal is read back by `parseInt` without a radix. */
  lemma ParseDecimalNoRadix(n: nat)
    ensures ParseInt(JsString(NatDecimal(n)), true) == Some(n)
  {
    ParseIntOfNumber(n, true);
    assert ToJsString(JsNumber(n)) == NatDecimal(n);
  }

  /** A character is a key of the frequency map exactly when the value
      contains it: the map-key test of index.js and the substring test of
      the controller agree on one-character needles. */
  lemma KeyIffContained(r: Record, c: char)
    requires Counted(r)
    ensures c in r.properties.characterFrequencyMap <==> Includes(r.value, [c])
  {
    IncludesChar(r.value, c);
  }

  /** A count written as text is truthy, and `parseInt` reads it back. */
  lemma NumberTextRead(n: Option<nat>)
    ensures Truthy(NumberText(n)) <==> n.Some?
    ensures n.Some? ==> ParseInt(NumberText(n), true) == Some(n.value)
  {
    if n.Some? {
      ParseDecimalNoRadix(n.value);
    }
  }

  /** Written as a query, any filters select the same records in the
      controller as the typed filters do in index.js. */
  lemma QueryOfFiltersAgrees(f: Filters, r: Record)
    requires Counted(r)
    ensures QueryMatches(EncodeFilters(f), r) == Matches(f, r)
  {
    var q := EncodeFilters(f);
    EncodedParams(f);
    NumberTextRead(f.minLength);
    NumberTextRead(f.maxLength);
    NumberTextRead(f.wordCount);
    var lo, hi, wc := NumberText(f.minLength), NumberText(f.maxLength), NumberText(f.wordCount);
    assert (Truthy(lo) ==> AtLeast(r.properties.length, lo)) == (f.minLength.Some? ==> r.properties.length >= f.minLength.value);
    assert (Truthy(hi) ==> AtMost(r.properties.length, hi)) == (f.maxLength.Some? ==> r.properties.length <= f.maxLength.value);
    assert (Truthy(wc) ==> SameNumber(r.properties.wordCount, wc)) == (f.wordCount.Some? ==> r.properties.wordCount == f.wordCount.value);
    if f.containsCharacter.Some? {
      KeyIffContained(r, f.containsCharacter.value);
    }
    if f.isPalindrome.Some? && !f.isPalindrome.value {
      assert JsString("false") != JsString("true") by { assert "false"[0] != "true"[0]; }
    }
  }

  /** So both servers list the same records for such a query, in the same
      order, once the controller accepts it: it refuses only the query of
      no filters at all. */
  lemma ListingsAgree(records: seq<Record>, f: Filters)
    requires forall i :: 0 <= i < |records| ==> Counted(records[i])
    ensures Filter(records, QueryMatcher(EncodeFilters(f))) == Filter(records, Matcher(f))
    ensures NoParameters(EncodeFilters(f)) <==> NoFilters(f)
  {
    var q := EncodeFilters(f);
    forall r | r in records
      ensures QueryMatcher(q)(r) == Matcher(f)(r)
    {
      QueryOfFiltersAgrees(f, r);
    }
    FilterCongruent(records, QueryMatcher(q), Matcher(f));
    RefusedIffEmpty(f);
  }

  /** The controller refuses the query of some filters exactly when there
      are none. */
  lemma RefusedIffEmpty(f: Filters)
    ensures NoParameters(EncodeFilters(f)) <==> NoFilters(f)
  {
    EncodedParams(f);
    NumberTextRead(f.minLength);
    NumberTextRead(f.maxLength);
    NumberTextRead(f.wordCount);
  }

  // ------------------------------------------------ where the two disagree

  /** A query without parameters: index.js lists every record, the
      controller answers 400. */
  lemma EmptyQueryDiffers()
    ensures ValidateQuery(map[]) == Success(Filters(None, None, None, None, None))
    ensures NoParameters(map[])
  {
  }

  /** `is_palindrome=TRUE`: index.js reads it as true in any case; the
      controller compares with "true" exactly and keeps the records that are
      not palindromes. */
  lemma UppercaseTrueDiffers(r: Record)
    ensures ValidateQuery(map["is_palindrome" := JsString("TRUE")]) == Success(Filters(Some(true), None, None, None, None))
    ensures QueryMatches(map["is_palindrome" := JsString("TRUE")], r) <==> !r.properties.isPalindrome
  {
    assert Lower("TRUE") == "true";
    assert JsString("TRUE") != JsString("true") by { assert "TRUE"[0] != "true"[0]; }
  }

  /** Text that starts with a letter is NaN to `parseInt`, with or without
      a radix. */
  lemma LetterIsNaN(s: string, hexPrefix: bool)
    requires s != [] && 'a' <= s[0] <= 'z'
    ensures ParseIntText(s, hexPrefix) == None
  {
    ParseIntTextSign(s, hexPrefix);
  }

  /** `min_length=abc`: index.js answers 400; the controller compares every
      length with NaN and lists nothing. */
  lemma NotANumberDiffers(r: Record)
    ensures ValidateQuery(map["min_length" := JsString("abc")]).Failure?
    ensures !QueryMatches(map["min_length" := JsString("abc")], r)
  {
    NotANumberRefused();
    NotANumberKeepsNothing(r);
  }

  lemma NotANumberRefused()
    ensures ValidateQuery(map["min_length" := JsString("abc")]).Failure?
  {
    LetterIsNaN("abc", false);
    assert Param(map["min_length" := JsString("abc")], "min_length") == JsString("abc");
  }

  lemma NotANumberKeepsNothing(r: Record)
    ensures !QueryMatches(map["min_length" := JsString("abc")], r)
  {
    LetterIsNaN("abc", true);
    assert Param(map["min_length" := JsString("abc")], "min_length") == JsString("abc");
  }
}
