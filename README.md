# String analyser service, modelled in Dafny

The service stores strings and computes a record of properties for each one:
- length;
- a case-folded palindrome flag;
- the number of distinct characters;
- the word count;
- a SHA-256 digest;
- a per-character frequency map.

Strings are stored in memory under their digest. They can be listed through
typed filters or through a small English-like query language.

The repository carries two servers that do this differently:
- the self-contained server in `index.js`;
- the Express controller in `controllers/stringController.js`.

This project models each server on its own. Lemmas state where the two
agree and where they part ways.

Modules:
- `Common`: `Option` and `Result`.
- `Text`: the string primitives in JavaScript's terms. These are `trim`,
  `split(/\s+/)`, ASCII `toLowerCase`, `includes`, and the leftmost-match
  rule of `String.prototype.match`.
- `Js`: the values that reach a handler (`undefined`, `null`, booleans,
  integer numbers, strings, objects), with truthiness, `String(v)` and
  `parseInt` with and without a radix.
- `Seqs`: `Array.prototype.filter`, and the lemma that a chain of filters
  equals one conjunctive filter.
- `Analysis`: `analyzeStringValue` and `parseBooleanParam` of
  `utils/analyzeString.js`. `index.js` carries an identical copy of both at
  lines 24-62. The frequency loop is a method proved against the
  specification function `Analyze`.
- `CheckedAnalyzer`: `analyzeString` of `utils/analyzer.js`. It refuses
  non-strings and blank strings.
- `Store`: the insertion-ordered dictionary both servers keep (`store_db`
  and `stringDB`), as a class whose methods update its fields in place.
- `Api`: queries, typed filters and replies.
- `IndexFilters`, `IndexLanguage`, `IndexServer`: `index.js`, covering:
  - query validation;
  - the filter chain;
  - the natural-language rules;
  - the handler class `App`.
- `ControllerAnalysis`, `ControllerFilters`, `ControllerLanguage`,
  `Controller`: the same four parts of the controller.
- `Variants`: comparisons between the two servers.

The digest function is a parameter `hash: string -> Digest`. Everything
proved holds for every such function. Injectivity is not required, so a
second string with the same digest is treated as "already exists", exactly
as both servers treat it. The creation time is a parameter too.

## Model

| member | source | states |
|---|---|---|
| Analysis.CountCharacters | utils/analyzeString.js:26-29 | the loop's map has exactly the characters of the value as keys, each mapped to its number of occurrences |
| Analysis.FrequenciesSnoc | utils/analyzeString.js:27-28 | one loop step adds one to the character's count, or gives a new character the count one |
| Analysis.AnalyzeStringValue | utils/analyzeString.js:17-39 | the computed record is `Analyze(hash, value)`: the untrimmed length, the lower-cased-reverse palindrome flag, the distinct characters, the word count of the trimmed value, the digest and the frequency map (identical code at index.js:24-47) |
| Analysis.PalindromeIsMirrored | utils/analyzeString.js:19-20 | a string is a palindrome exactly when each character equals, up to ASCII case, the one at the mirrored position |
| Analysis.SpacesAreNotStripped | utils/analyzeString.js:19-20 | spaces count: "A man a man" is not a palindrome |
| Analysis.LevelIsPalindrome | utils/analyzeString.js:19-20 | "level" is a palindrome |
| Analysis.LevelIsOneWord | utils/analyzeString.js:22-23 | "level" has one word |
| Analysis.WordCountOfBlank | utils/analyzeString.js:22-23 | the word count is 0 exactly for blank strings and at least 1 for every other string |
| Analysis.FrequenciesSumToLength | utils/analyzeString.js:26-29 | the counts of the frequency map add up to the length of the value |
| Analysis.UniqueCharactersAreKeys | utils/analyzeString.js:21-29 | `unique_characters` is the number of keys of the frequency map, whose counts add up to `length` |
| Analysis.ParseBooleanParam | utils/analyzeString.js:45-52 | true exactly for "true" in any case, false exactly for "false" in any case, undefined for every other string and every non-string (identical code at index.js:55-62) |
| CheckedAnalyzer.AnalyzeString | utils/analyzer.js:3-27 | fails, with the source's message, exactly when the value is not a string or is blank; otherwise returns the same properties as `analyzeStringValue`, with a word count of at least 1 |
| CheckedAnalyzer.Measure | utils/analyzer.js:8-26 | for a non-blank string, `trim().split(/\s+/).length` and the rest of the record equal `analyzeStringValue`'s |
| Text.TrimBlank | utils/analyzeString.js:22-23 | `trim()` gives the empty string exactly for blank strings, and otherwise a string that starts and ends with a non-whitespace character |
| Text.SplitPiecesNonEmpty | controllers/stringController.js:12 | a trimmed, non-empty string splits on whitespace runs into non-empty pieces only |
| Text.IncludesMeaning | index.js:246-256 | `includes` holds exactly when the needle occurs at some position |
| Text.IncludesChar | controllers/stringController.js:71 | a one-character needle is included exactly when the character occurs in the string |
| Text.FindNumberAfterMeaning | index.js:259-274 | `/lit(\d+)/` finds nothing exactly when no position has the literal followed by a digit; otherwise it reads the maximal digit run after the leftmost match |
| Js.ParseIntOfNumber | index.js:150-156 | `parseInt(String(n))` gives `n` back, with or without the radix 10 |
| Seqs.FilterKeeps | index.js:189-206 | a filter keeps exactly the elements that pass, each as often as it occurs, as a subsequence in the original order |
| Store.Dictionary.constructor | index.js:14 | the store starts empty |
| Store.Dictionary.Set | index.js:96 | the record is stored under its key; a new key goes to the end of the enumeration order and an existing key keeps its place; the store invariant is kept |
| Store.Dictionary.Remove | index.js:347 | only that key is removed, from the entries and from the order; the store invariant is kept |
| Store.Dictionary.Values | index.js:189 | `Object.values` lists one record per key, and a record exactly when it is stored under some key |
| IndexFilters.PassesAll | index.js:192-206 | passing each of the five chained tests is passing the conjunction of the given filters |
| IndexFilters.ApplyFilters | index.js:189-206 | the chain of `filter` calls keeps, in store order, exactly the records that match every given filter (inclusive bounds, exact word count and flag, character as a frequency-map key) |
| IndexFilters.PalindromeParam | index.js:142-148 | `is_palindrome` is refused exactly when present and not "true"/"false" in some case, with the source's message |
| IndexFilters.LengthParam | index.js:150-156 | a length parameter is refused exactly when present and `parseInt(_, 10)` gives NaN or a negative number; otherwise its value is the number read |
| IndexFilters.CharacterParam | index.js:174-180 | `contains_character` is refused exactly when present and not a string of one character |
| IndexFilters.ValidateEncoded | index.js:141-187 | every consistent set of filters, written as a query, passes validation and is read back unchanged |
| IndexLanguage.FindLetterMeaning | index.js:277-280 | `/letter\s+([a-z0-9])/` captures nothing exactly when it matches nowhere; otherwise it captures the lower-case letter or digit after the leftmost match |
| IndexLanguage.Understood | index.js:288-290 | a query is understood (no 400) exactly when one of the cues occurs in it |
| IndexLanguage.LongerThanIsLonger | index.js:259-265 | "longer than N" keeps only strings of more than N characters |
| IndexLanguage.ShorterThanIsShorter | index.js:268-274 | "shorter than N" keeps only strings of fewer than N characters, and for N = 0 the empty string |
| IndexLanguage.CharacterIsLowerAlphanumeric | index.js:277-285 | the character filter is always a lower-case letter or a digit, 'a' included |
| IndexLanguage.CaseIsIgnored | index.js:242 | queries that differ only in ASCII case are read as the same filters |
| IndexLanguage.FirstLetter | index.js:277-280 | "letter", a space and a letter or digit, with no earlier "letter", yields that character |
| IndexLanguage.LongerThanTen | index.js:258-265 | "strings longer than 10 characters" asks for at least 11 characters |
| IndexLanguage.LetterZ | index.js:276-280 | "strings containing the letter z" asks for a 'z' |
| IndexLanguage.SingleWordPalindromic | index.js:245-256 | "all single word palindromic strings" asks for one-word palindromes |
| IndexServer.ReadFilters | index.js:141-187 | the field-by-field validation returns `ValidateQuery`: the first bad parameter's message, or the minimum-above-maximum message, or the typed filters |
| IndexServer.ReadSentence | index.js:245-285 | the rules applied one after the other give `Interpretation`, with `Math.max(0, N - 1)` for "shorter than N" and 'a' only when no letter was named |
| IndexServer.App.constructor | index.js:14 | the server starts with an empty store that satisfies the invariant |
| IndexServer.App.Create | index.js:69-99 | no body or no `value` gives 400 and a non-string gives 422, with the store unchanged; a digest already stored gives 409 with the store unchanged; otherwise the one new record (digest, value, `analyzeStringValue` properties, time) is added and nothing else changes |
| IndexServer.App.GetByValue | index.js:106-123 | 200 with the record stored under the value's digest exactly when there is one, 404 otherwise |
| IndexServer.App.ListStrings | index.js:136-220 | a bad query gives 400 with the validation message; otherwise 200 with exactly the stored records matching the typed filters, in store order, their count, and the typed filters echoed |
| IndexServer.App.FilterByNaturalLanguage | index.js:236-326 | a missing, empty or non-string query gives 400; no cue gives 400; crossed bounds give 422; otherwise 200 with the records matching the lower-cased query's filters |
| IndexServer.App.Delete | index.js:333-351 | an absent digest gives 404 with the store unchanged; otherwise 204 and only that record is removed |
| IndexServer.CreateThenGet | index.js:80-122 | after a create, a lookup of the same value returns the record just stored, or on a 409 the record stored before |
| IndexServer.CreateTwice | index.js:83-86 | posting the same string a second time gives 409 |
| IndexServer.DeleteThenGet | index.js:341-347 | after a delete, a lookup of the same value gives 404 and only that record is gone |
| IndexServer.AskBothWays | index.js:300-316 | a sentence lists the same records as GET /strings given the filters the sentence was read as |
| ControllerAnalysis.WordCountsAgree | controllers/stringController.js:12 | `trim().split(/\s+/).filter(Boolean).length` equals `analyzeStringValue`'s word count for every string, blank ones included |
| ControllerAnalysis.AnalyzeRecord | controllers/stringController.js:7-32 | `analyze` returns the record with id = digest = `properties.sha256_hash`, the value unchanged and the properties of `analyzeStringValue` |
| ControllerFilters.QueryPassesAll | controllers/stringController.js:67-71 | passing each of the five chained tests is passing the whole query |
| ControllerFilters.FilterByQuery | controllers/stringController.js:65-71 | the chain keeps, in store order, exactly the records that pass every parameter present (`is_palindrome`) or truthy (the others), with NaN comparisons false and a substring test for the character |
| ControllerFilters.KeyIffContained | controllers/stringController.js:71 | for a one-character needle, the controller's substring test and index.js's frequency-map test agree |
| ControllerFilters.QueryOfFiltersAgrees | controllers/stringController.js:67-71 | any typed filters written as a query select the same records in the controller as in index.js |
| ControllerFilters.ListingsAgree | controllers/stringController.js:59-71 | both servers list the same records in the same order for such a query, and the controller refuses it exactly when it has no filter |
| ControllerFilters.EmptyQueryDiffers | controllers/stringController.js:59-63 | with no parameters, index.js lists everything while the controller answers 400 |
| ControllerFilters.UppercaseTrueDiffers | controllers/stringController.js:67 | `is_palindrome=TRUE` asks index.js for palindromes and the controller for non-palindromes |
| ControllerFilters.LetterIsNaN | controllers/stringController.js:68 | text starting with a letter is NaN to `parseInt` |
| ControllerFilters.NotANumberDiffers | controllers/stringController.js:68 | `min_length=abc` gives 400 in index.js and an empty listing in the controller |
| ControllerLanguage.FindWordCharMeaning | controllers/stringController.js:110 | `/containing the letter (\w)/` captures nothing exactly when it matches nowhere; otherwise it captures the `\w` character after the leftmost match |
| ControllerLanguage.ReadControllerSentence | controllers/stringController.js:105-110 | the rules applied in order give `ControllerInterpretation`, where "two word" overwrites "single word" and the numbers are taken as written |
| ControllerLanguage.ControllerCues | controllers/stringController.js:105-110 | each filter is set exactly when its cue occurs: 2 words for "two word", 1 for "single word" without "two word", and so on |
| ControllerLanguage.SentencePassesAll | controllers/stringController.js:117-120 | passing each of the four chained tests is passing the conjunction |
| ControllerLanguage.NarrowBySentence | controllers/stringController.js:116-120 | the chain keeps, in store order, exactly the records matching the truthy filters: word count, palindrome, length above the minimum, character as substring |
| ControllerLanguage.ShorterThanNeverNarrows | controllers/stringController.js:109-120 | the maximum length read from "shorter than N" never changes the records listed |
| Controller.ControllerApp.constructor | controllers/stringController.js:4 | the controller starts with an empty Map that satisfies the invariant |
| Controller.ControllerApp.Create | controllers/stringController.js:35-54 | no body or an undefined `value` gives 400, a falsy `value` gives 400, a non-string gives 422, a stored digest gives 409, all with the Map unchanged; otherwise exactly one entry is added under the digest |
| Controller.ControllerApp.GetByValue | controllers/stringController.js:81-87 | 200 with the stored record exactly when the value's digest is stored, 404 otherwise |
| Controller.ControllerApp.ListStrings | controllers/stringController.js:57-78 | no filter parameter gives 400; otherwise 200 with exactly the stored records passing the query, their count, and the query echoed |
| Controller.ControllerApp.NaturalLanguageFilter | controllers/stringController.js:99-144 | a falsy query gives 400 and any other non-string a 500; no cue gives 400; crossed bounds give 422 with the interpreted query and no data; otherwise 200 with the records the truthy filters keep |
| Controller.ControllerApp.Delete | controllers/stringController.js:90-96 | an absent digest gives 404 with the Map unchanged; otherwise 204 and only that entry is removed |
| Variants.CreateAgrees | controllers/stringController.js:35-54 | both servers store the same record for a non-empty string |
| Variants.FalsyValueDiffers | controllers/stringController.js:43 | the empty string is stored by index.js and refused with 400 by the controller; `null`, `false` and `0` get 422 from index.js and 400 from the controller |
| Variants.ObjectQueryDiffers | controllers/stringController.js:101-108 | a non-string query gives 400 in index.js and a 500 in the controller |
| Variants.LongerThanVariants | controllers/stringController.js:108-119 | "longer than N" selects the same records in both servers for N >= 1; for N = 0 the controller keeps the empty string, which index.js leaves out |
| Variants.ShorterThanVariants | controllers/stringController.js:109-120 | "shorter than N" bounds the length in index.js and changes nothing in the controller |
| Variants.UpperCaseQueryDiffers | controllers/stringController.js:105-110 | "PALINDROMIC" asks index.js for palindromes and is not understood by the controller, which does not lower-case |
| Variants.NoCueLetters | controllers/stringController.js:105-114 | a query without any of the letters that start the controller's cues reads as no filter at all |
| Variants.TwoWordOverrides | controllers/stringController.js:105-106 | "two word" gives a word count of 2 in the controller, while index.js does not read it |

## Left out

- SHA-256 itself is not modelled: the digest is the parameter `hash`, and nothing is proved about the digest format.
- `./helpers` (imported by utils/analyzer.js) is not part of this model. Its `sha256` is taken to be the same `hash`.
- Express wiring is not modelled: routes/stringRoutes.js, body parsing, CORS, the port and `listen`. Handlers take the parsed body or query and return a status with a body.
- A reply models only the status and the message. The JSON key that carries the message (`error`, `message`, `status: 'error'`) is not modelled.
- `created_at` comes from the clock, so it is a parameter of the create handlers.
- `decodeURIComponent` on path values is not modelled, and neither is its `URIError`. The handlers take the decoded string. The `typeof value !== 'string'` checks after it (index.js:112-114, 337-339) can never fire.
- The catch-all 500 of GET /strings (index.js:221-223) is not modelled: nothing in the modelled handler throws.
- `parseInt` is modelled on unbounded integers. Precision loss, `Infinity` and exponent forms of large numbers are not modelled. The radix-less form reads a `0x` prefix as hexadecimal and nothing else.
- Numbers in a JSON body are integers. Fractions are not modelled.
- Arrays and other objects in a query or body are one case, `JsObject`. Its `String()` is "[object Object]", whereas JavaScript joins an array's elements.
- The controller's 500 for a non-string query is a `Crashed` reply. Express's error page is not modelled.
- Strings are sequences of `char`. The model ignores the difference between UTF-16 code units (`.length`, `split('')`) and code points (`new Set`, `for...of`).
- `toLowerCase` folds ASCII letters only.
- `store_db` is a plain object, so `store_db[id]` would also find inherited keys such as "constructor". Hexadecimal digests never collide with such keys, so this is not modelled.
- Enumeration order is insertion order. An object would list integer-like keys first, but a 64-digit hexadecimal digest is never an array index.
- The `Number.isNaN` checks in the natural-language parser of index.js (lines 262 and 271) can never fire, because `\d+` captures only digits.
- Both servers filter a copy of the stored records. Aliasing between the reply and the store is not modelled.
- IndexServer.AskBothWays: the two listings are compared only when the sentence is answered with 200.
