/** The request handlers of controllers/stringController.js around its
    `stringDB` Map: create, look up, list, list by a natural-language query,
    delete. */
module Controller {
  import opened Common
  import opened Text
  import opened Js
  import opened Seqs
  import opened Analysis
  import opened Store
  import opened Api
  import opened ControllerAnalysis
  import opened ControllerFilters
  import opened ControllerLanguage

  const InvalidBody := "Invalid request body or missing \"value\" field"
  const MissingValueField := "Missing value field"
  const MustBeString := "Value must be a string"
  const AlreadyExists := "String already exists"
  const NotFound := "String not found"
  const NoQueryFilters := "Invalid query parameter values or types"
  const MissingQueryParameter := "Missing query parameter"
  const NotUnderstood := "Unable to parse natural language query"
  const ConflictingLengths := "Unprocessable Entity: Query resulted in conflicting length filters."

  /** The body of a GET /strings reply: the query is echoed as it came. */
  datatype Listing = Listing(data: seq<Record>, count: nat, filtersApplied: Query)

  /** `interpreted_query`: the query as given and the filters read from it. */
  datatype InterpretedQuery = InterpretedQuery(original: string, parsedFilters: Filters)

  /** The replies of the natural-language endpoint: a 400 with its message,
      a 500 from the `TypeError` a non-string query raises, a 422 that
      carries the interpreted query, or a 200 listing. */
  datatype SentenceReply =
    | Refused(status: nat, message: string)
    | Crashed
    | Conflict(message: string, interpreted: InterpretedQuery)
    | Listed(data: seq<Record>, count: nat, interpreted: InterpretedQuery)

  class ControllerApp {
    /** `crypto.createHash('sha256')...digest('hex')`. */
    const hash: string -> Digest
    /** `stringDB`. */
    const store: Dictionary

    /** Every record is stored under its own digest, and carries the
        digest and properties of its value. */
    ghost predicate Valid()
      reads this, store
    {
      && store.Valid()
      && forall k :: k in store.entries ==>
           && store.entries[k].id == k
           && hash(store.entries[k].value) == k
           && store.entries[k].properties == Analyze(hash, store.entries[k].value)
    }

    constructor(hash: string -> Digest)
      ensures Valid() && fresh(store)
      ensures this.hash == hash && store.entries == map[]
    {
      this.hash := hash;
      store := new Dictionary();
    }

    /** POST /strings (lines 35-54). `body` is `None` when the request has
        no body; `createdAt` is the time of the request. */
    method Create(body: Option<Query>, createdAt: string) returns (r: Response<Record>)
      requires Valid()
      modifies store
      ensures Valid()
      ensures body.None? || Param(body.value, "value").JsUndefined? ==> r == Error(400, InvalidBody) && unchanged(store)
      ensures body.Some? && !Param(body.value, "value").JsUndefined? ==>
                var v := Param(body.value, "value");
                if !Truthy(v) then r == Error(400, MissingValueField) && unchanged(store)
                else if !v.JsString? then r == Error(422, MustBeString) && unchanged(store)
                else if hash(v.s) in old(store.entries) then r == Error(409, AlreadyExists) && unchanged(store)
                else
                  && r == Ok(201, Record(hash(v.s), v.s, Analyze(hash, v.s), createdAt))
                  && store.entries == old(store.entries)[hash(v.s) := r.body]
                  && store.order == old(store.order) + [hash(v.s)]
    {
      if body.None? || Param(body.value, "value").JsUndefined? {
        return Error(400, InvalidBody);
      }
      var value := Param(body.value, "value");
      if !Truthy(value) {
        return Error(400, MissingValueField);
      }
      if !value.JsString? {
        return Error(422, MustBeString);
      }
      var id := hash(value.s);
      if store.Has(id) {
        return Error(409, AlreadyExists);
      }
      var analyzed := AnalyzeRecord(hash, value.s, createdAt);
      store.Set(id, analyzed);
      r := Ok(201, analyzed);
    }

    /** GET /strings/:value (lines 81-87). */
    method GetByValue(value: string) returns (r: Response<Record>)
      requires Valid()
      ensures r.Ok? <==> hash(value) in store.entries
      ensures r.Ok? ==> r.status == 200 && r.body == store.entries[hash(value)]
      ensures r.Ok? ==> hash(r.body.value) == hash(value) && r.body.properties == Analyze(hash, r.body.value)
      ensures r.Error? ==> r == Error(404, NotFound)
    {
      var id := hash(value);
      if !store.Has(id) {
        return Error(404, NotFound);
      }
      r := Ok(200, store.entries[id]);
    }

    /** GET /strings (lines 57-78): refused when no filter parameter is
        given, otherwise the stored records that pass the query. */
    method ListStrings(q: Query) returns (r: Response<Listing>)
      requires Valid()
      ensures NoParameters(q) ==> r == Error(400, NoQueryFilters)
      ensures !NoParameters(q) ==>
                && r.Ok? && r.status == 200 && r.body.filtersApplied == q
                && r.body.data == Filter(store.Values(), QueryMatcher(q)) && r.body.count == |r.body.data|
      ensures r.Ok? ==> forall x :: x in r.body.data <==> x in store.Values() && QueryMatches(q, x)
    {
      if NoParameters(q) {
        return Error(400, NoQueryFilters);
      }
      var data := FilterByQuery(store.Values(), q);
      FilterKeeps(store.Values(), QueryMatcher(q));
      r := Ok(200, Listing(data, |data|, q));
    }

    /** GET /strings/filter-by-natural-language (lines 99-144). */
    method NaturalLanguageFilter(q: JsValue) returns (r: SentenceReply)
      requires Valid()
      ensures !Truthy(q) ==> r == Refused(400, MissingQueryParameter)
      ensures Truthy(q) && !q.JsString? ==> r == Crashed
      ensures q.JsString? && q.s != [] ==>
                var f := ControllerInterpretation(q.s);
                if NoFilters(f) then r == Refused(400, NotUnderstood)
                else if Conflicting(f) then r == Conflict(ConflictingLengths, InterpretedQuery(q.s, f))
                else r.Listed? && r.interpreted == InterpretedQuery(q.s, f)
                     && r.data == Filter(store.Values(), SentenceMatcher(f)) && r.count == |r.data|
    {
      if !Truthy(q) {
        return Refused(400, MissingQueryParameter);
      }
      if !q.JsString? {
        return Crashed;
      }
      var parsed := ReadControllerSentence(q.s);
      if NoFilters(parsed) {
        return Refused(400, NotUnderstood);
      }
      var data := NarrowBySentence(store.Values(), parsed);
      if parsed.minLength.Some? && parsed.maxLength.Some? && parsed.minLength.value > parsed.maxLength.value {
        return Conflict(ConflictingLengths, InterpretedQuery(q.s, parsed));
      }
      r := Listed(data, |data|, InterpretedQuery(q.s, parsed));
    }

    /** DELETE /strings/:value (lines 90-96). A 204 reply has no body. */
    method Delete(value: string) returns (r: Response<()>)
      requires Valid()
      modifies store
      ensures Valid()
      ensures hash(value) !in old(store.entries) ==> r == Error(404, NotFound) && unchanged(store)
      ensures hash(value) in old(store.entries) ==>
                && r == Ok(204, ())
                && store.entries == old(store.entries) - {hash(value)}
                && store.order == Without(old(store.order), hash(value))
    {
      var id := hash(value);
      if !store.Has(id) {
        return Error(404, NotFound);
      }
      store.Remove(id);
      r := Ok(204, ());
    }
  }
}
