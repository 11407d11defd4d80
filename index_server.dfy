/** The request handlers of index.js around its `store_db` object: create,
    look up, list with filters, list by a natural-language query, delete.
    Each handler is a method of `App`, whose store the handlers that write
    change in place. */
module IndexServer {
  import opened Common
  import opened Text
  import opened Js
  import opened Seqs
  import opened Analysis
  import opened Store
  import opened Api
  import opened IndexFilters
  import opened IndexLanguage

  const MissingValue := "Invalid request body or missing \"value\" field"
  const ValueNotString := "Invalid data type for \"value\" (must be string)"
  const AlreadyExists := "String already exists in the system"
  const DoesNotExist := "String does not exist in the system"
  const MissingQuery := "Missing or invalid \"query\" parameter"
  const NotUnderstood := "Unable to parse natural language query"
  const ConflictingFilters := "Query parsed but resulted in conflicting filters"

  /** The record POST /strings stores for `value`. */
  function NewRecord(hash: string -> Digest, value: string, createdAt: string): Record {
    Record(hash(value), value, Analyze(hash, value), createdAt)
  }

  /** The body of a GET /strings reply. */
  datatype Listing = Listing(data: seq<Record>, count: nat, filtersApplied: Filters)

  /** The body of a natural-language reply: the records, and the query as
      given with the filters read from it. */
  datatype Interpreted = Interpreted(data: seq<Record>, count: nat, original: string, parsedFilters: Filters)

  /** The validation of GET /strings (index.js:141-187): each parameter
      present is parsed in turn, and the first bad one, or a minimum above
      the maximum, ends the request with a 400. */
  method ReadFilters(q: Query) returns (result: Result<Filters, string>)
    ensures result == ValidateQuery(q)
  {
    var isPalindrome: Option<bool> := None;
    var p := Param(q, "is_palindrome");
    if !p.JsUndefined? {
      var b := ParseBooleanParam(p);
      if b.None? {
        return Failure(InvalidPalindrome);
      }
      isPalindrome := b;
    }
    assert PalindromeParam(p) == Success(isPalindrome);
    var minLength: Option<nat> := None;
    var minText := Param(q, "min_length");
    if !minText.JsUndefined? {
      var n := ParseInt(minText, false);
      if n.None? || n.value < 0 {
        return Failure(InvalidLength("min_length"));
      }
      minLength := Some(n.value);
    }
    assert LengthParam(minText, "min_length") == Success(minLength);
    var maxLength: Option<nat> := None;
    var maxText := Param(q, "max_length");
    if !maxText.JsUndefined? {
      var n := ParseInt(maxText, false);
      if n.None? || n.value < 0 {
        return Failure(InvalidLength("max_length"));
      }
      maxLength := Some(n.value);
    }
    assert LengthParam(maxText, "max_length") == Success(maxLength);
    var wordCount: Option<nat> := None;
    var countText := Param(q, "word_count");
    if !countText.JsUndefined? {
      var n := ParseInt(countText, false);
      if n.None? || n.value < 0 {
        return Failure(InvalidLength("word_count"));
      }
      wordCount := Some(n.value);
    }
    assert LengthParam(countText, "word_count") == Success(wordCount);
    var containsCharacter: Option<char> := None;
    var cc := Param(q, "contains_character");
    if !cc.JsUndefined? {
      if !cc.JsString? || |cc.s| != 1 {
        return Failure(InvalidCharacter);
      }
      containsCharacter := Some(cc.s[0]);
    }
    assert CharacterParam(cc) == Success(containsCharacter);
    if minLength.Some? && maxLength.Some? && minLength.value > maxLength.value {
      return Failure(MinAboveMax);
    }
    result := Success(Filters(isPalindrome, minLength, maxLength, wordCount, containsCharacter));
  }

  /** The rules of index.js:245-285, applied one after the other to the
      lower-cased query; each sets one filter. */
  method ReadSentence(query: string) returns (parsed: Filters)
    ensures parsed == Interpretation(query)
  {
    var wordCount: Option<nat> := None;
    if Includes(query, "single word") {
      wordCount := Some(1);
    } else {
      if Includes(query, "single-word") {
        wordCount := Some(1);
      }
    }
    assert wordCount == WordCountCue(query);
    var isPalindrome: Option<bool> := None;
    if Includes(query, "palindrom") {
      isPalindrome := Some(true);
    }
    assert isPalindrome == PalindromeCue(query);
    var minLength: Option<nat> := None;
    var longer := FindNumberAfter(query, "longer than ");
    if longer.Some? {
      minLength := Some(longer.value + 1);
    }
    assert minLength == LongerThanCue(query);
    var maxLength: Option<nat> := None;
    var shorter := FindNumberAfter(query, "shorter than ");
    if shorter.Some? {
      var n := shorter.value;
      maxLength := Some(if n < 1 then 0 else n - 1);
    }
    assert maxLength == ShorterThanCue(query);
    var containsCharacter := FindLetter(query);
    if Includes(query, "first vowel") {
      if containsCharacter.None? {
        containsCharacter := Some('a');
      }
    }
    assert containsCharacter == CharacterCue(query);
    parsed := Filters(isPalindrome, minLength, maxLength, wordCount, containsCharacter);
  }

  class App {
    /** `sha256`. */
    const hash: string -> Digest
    /** `store_db`. */
    const store: Dictionary

    /** Every record is stored under its own digest, and carries the
        digest and properties of its value. */
    ghost predicate Valid()
      reads this, store
    {
      && store.Valid()
      && forall k :: k in store.entries ==>
           && store.entries[k].id == k
           && hash(store.entries[k].value) == k
           && store.entries[k].properties == Analyze(hash, store.entries[k].value)
    }

    constructor(hash: string -> Digest)
      ensures Valid() && fresh(store)
      ensures this.hash == hash && store.entries == map[]
    {
      this.hash := hash;
      store := new Dictionary();
    }

    /** POST /strings (index.js:69-99). `body` is `None` when the request
        has no object body; `createdAt` is the time of the request. */
    method Create(body: Option<Query>, createdAt: string) returns (r: Response<Record>)
      requires Valid()
      modifies store
      ensures Valid()
      ensures body.None? || "value" !in body.value ==> r == Error(400, MissingValue) && unchanged(store)
      ensures body.Some? && "value" in body.value && !body.value["value"].JsString? ==>
                r == Error(422, ValueNotString) && unchanged(store)
      ensures body.Some? && "value" in body.value && body.value["value"].JsString? ==>
                var value := body.value["value"].s;
                if hash(value) in old(store.entries) then
                  r == Error(409, AlreadyExists) && unchanged(store)
                else
                  && r == Ok(201, NewRecord(hash, value, createdAt))
                  && store.entries == old(store.entries)[hash(value) := r.body]
                  && store.order == old(store.order) + [hash(value)]
    {
      if body.None? || "value" !in body.value {
        return Error(400, MissingValue);
      }
      var v := body.value["value"];
      if !v.JsString? {
        return Error(422, ValueNotString);
      }
      var value := v.s;
      var properties := AnalyzeStringValue(hash, value);
      var id := properties.sha256Hash;
      if store.Has(id) {
        return Error(409, AlreadyExists);
      }
      var record := Record(id, value, properties, createdAt);
      store.Set(id, record);
      r := Ok(201, record);
    }

    /** GET /strings/:string_value (index.js:106-123), for the decoded value. */
    method GetByValue(value: string) returns (r: Response<Record>)
      requires Valid()
      ensures r.Ok? <==> hash(value) in store.entries
      ensures r.Ok? ==> r.status == 200 && r.body == store.entries[hash(value)]
      ensures r.Ok? ==> hash(r.body.value) == hash(value) && r.body.properties == Analyze(hash, r.body.value)
      ensures r.Error? ==> r == Error(404, DoesNotExist)
    {
      var id := hash(value);
      if !store.Has(id) {
        return Error(404, DoesNotExist);
      }
      r := Ok(200, store.entries[id]);
    }

    /** GET /strings (index.js:136-220): the parameters are validated, then
        the stored records are narrowed by the filters given. */
    method ListStrings(q: Query) returns (r: Response<Listing>)
      requires Valid()
      ensures ValidateQuery(q).Failure? ==> r == Error(400, ValidateQuery(q).error)
      ensures ValidateQuery(q).Success? ==>
                var f := ValidateQuery(q).value;
                r.Ok? && r.status == 200 && r.body.filtersApplied == f
                && r.body.data == Filter(store.Values(), Matcher(f)) && r.body.count == |r.body.data|
      ensures r.Ok? ==> forall x :: x in r.body.data <==> x in store.Values() && Matches(r.body.filtersApplied, x)
    {
      var validated := ReadFilters(q);
      if validated.Failure? {
        return Error(400, validated.error);
      }
      var filters := validated.value;
      var results := ApplyFilters(store.Values(), filters);
      FilterKeeps(store.Values(), Matcher(filters));
      r := Ok(200, Listing(results, |results|, filters));
    }

    /** GET /strings/filter-by-natural-language (index.js:236-326): the
        query is lower-cased, read into filters, and the stored records are
        narrowed by them as GET /strings narrows them. */
    method FilterByNaturalLanguage(q: JsValue) returns (r: Response<Interpreted>)
      requires Valid()
      ensures !(q.JsString? && q.s != []) ==> r == Error(400, MissingQuery)
      ensures q.JsString? && q.s != [] ==>
                var f := Interpretation(Lower(q.s));
                if NoFilters(f) then r == Error(400, NotUnderstood)
                else if Conflicting(f) then r == Error(422, ConflictingFilters)
                else r.Ok? && r.status == 200 && r.body.original == q.s && r.body.parsedFilters == f
                     && r.body.data == Filter(store.Values(), Matcher(f)) && r.body.count == |r.body.data|
    {
      if !Truthy(q) || !q.JsString? {
        return Error(400, MissingQuery);
      }
      var query := Lower(q.s);
      var parsed := ReadSentence(query);
      if NoFilters(parsed) {
        return Error(400, NotUnderstood);
      }
      if parsed.minLength.Some? && parsed.maxLength.Some? && parsed.minLength.value > parsed.maxLength.value {
        return Error(422, ConflictingFilters);
      }
      var results := ApplyFilters(store.Values(), parsed);
      r := Ok(200, Interpreted(results, |results|, q.s, parsed));
    }

    /** DELETE /strings/:string_value (index.js:333-351), for the decoded
        value. A 204 reply has no body. */
    method Delete(value: string) returns (r: Response<()>)
      requires Valid()
      modifies store
      ensures Valid()
      ensures hash(value) !in old(store.entries) ==> r == Error(404, DoesNotExist) && unchanged(store)
      ensures hash(value) in old(store.entries) ==>
                && r == Ok(204, ())
                && store.entries == old(store.entries) - {hash(value)}
                && store.order == Without(old(store.order), hash(value))
    {
      var id := hash(value);
      if !store.Has(id) {
        return Error(404, DoesNotExist);
      }
      store.Remove(id);
      r := Ok(204, ());
    }
  }

  /** A string posted and then looked up: the lookup returns the record
      the create stored, or on a 409 the record stored before it. */
  method CreateThenGet(app: App, value: string, createdAt: string)
    returns (created: Response<Record>, fetched: Response<Record>)
    requires app.Valid()
    modifies app.store
    ensures app.Valid()
    ensures app.hash(value) !in old(app.store.entries) ==>
              && created.Ok? && created.status == 201 && fetched == Ok(200, created.body)
              && fetched.body.value == value && fetched.body.properties == Analyze(app.hash, value)
    ensures app.hash(value) in old(app.store.entries) ==>
              created == Error(409, AlreadyExists) && fetched == Ok(200, old(app.store.entries)[app.hash(value)])
  {
    var body: Query := map["value" := JsString(value)];
    assert "value" in body && body["value"] == JsString(value);
    created := app.Create(Some(body), createdAt);
    fetched := app.GetByValue(value);
  }

  /** The same string posted twice: the second create is refused with 409
      and leaves the store as the first left it. */
  method CreateTwice(app: App, value: string, createdAt: string)
    returns (first: Response<Record>, second: Response<Record>)
    requires app.Valid()
    modifies app.store
    ensures app.Valid()
    ensures second == Error(409, AlreadyExists)
    ensures app.hash(value) in app.store.entries
  {
    var body: Query := map["value" := JsString(value)];
    assert "value" in body && body["value"] == JsString(value);
    first := app.Create(Some(body), createdAt);
    second := app.Create(Some(body), createdAt);
  }

  /** A string deleted and then looked up: the lookup finds nothing, and
      only that string's record is gone. */
  method DeleteThenGet(app: App, value: string)
    returns (deleted: Response<()>, fetched: Response<Record>)
    requires app.Valid()
    modifies app.store
    ensures app.Valid()
    ensures deleted.Ok? <==> app.hash(value) in old(app.store.entries)
    ensures app.store.entries == old(app.store.entries) - {app.hash(value)}
    ensures fetched == Error(404, DoesNotExist)
  {
    ghost var before := app.store.entries;
    deleted := app.Delete(value);
    assert app.store.entries == before - {app.hash(value)} by {
      if app.hash(value) !in before {
        assert before - {app.hash(value)} == before;
      }
    }
    fetched := app.GetByValue(value);
  }

  /** A sentence asked on /strings/filter-by-natural-language lists the
      same records as GET /strings asked with the filters it was read as. */
  method AskBothWays(app: App, sentence: string)
    returns (spoken: Response<Interpreted>, written: Response<Listing>)
    requires app.Valid() && sentence != []
    ensures spoken.Ok? ==> written.Ok? && written.body.data == spoken.body.data
    ensures spoken.Ok? ==> written.body.filtersApplied == spoken.body.parsedFilters
  {
    spoken := app.FilterByNaturalLanguage(JsString(sentence));
    var f := Interpretation(Lower(sentence));
    if !Conflicting(f) {
      ValidateEncoded(f);
    }
    written := app.ListStrings(EncodeFilters(f));
  }
}
