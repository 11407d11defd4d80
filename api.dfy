/** What the HTTP handlers of both servers exchange: the parsed query string,
    the filters a listing is narrowed by, and the status-and-body replies. */
module Api {
  import opened Common
  import opened Js

  /** `req.query` (or a JSON `req.body`): named values; a missing name reads
      as `undefined`. */
  type Query = map<string, JsValue>

  function Param(q: Query, name: string): (v: JsValue)
    ensures name !in q ==> v == JsUndefined
  {
    if name in q then q[name] else JsUndefined
  }

  /** The typed filters of a listing; `None` is a filter that was not given. */
  datatype Filters = Filters(
    isPalindrome: Option<bool>,
    minLength: Option<nat>,
    maxLength: Option<nat>,
    wordCount: Option<nat>,
    containsCharacter: Option<char>)

  /** No filter at all: `Object.keys(parsed).length === 0`. */
  predicate NoFilters(f: Filters) {
    f.isPalindrome.None? && f.minLength.None? && f.maxLength.None? && f.wordCount.None? && f.containsCharacter.None?
  }

  /** Both length bounds are given and exclude every length. */
  predicate Conflicting(f: Filters) {
    f.minLength.Some? && f.maxLength.Some? && f.minLength.value > f.maxLength.value
  }

  /** A reply: a success status with its JSON body, or an error status with
      its message. */
  datatype Response<T> = Ok(status: nat, body: T) | Error(status: nat, message: string)
}
