/** Where the server of index.js and the controller of
    controllers/stringController.js agree, and where they part ways, on the
    same requests. */
module Variants {
  import opened Common
  import opened Text
  import opened Js
  import opened Seqs
  import opened Analysis
  import opened Store
  import opened Api
  import opened IndexFilters
  import opened IndexLanguage
  import IndexServer
  import Controller
  import opened ControllerLanguage

  /** A non-empty string is stored alike by both: the same record, with
      the properties `analyzeStringValue` computes. */
  method CreateAgrees(hash: string -> Digest, value: string, createdAt: string)
    returns (fromIndex: Response<Record>, fromController: Response<Record>)
    requires value != []
    ensures fromIndex == fromController == Ok(201, Record(hash(value), value, Analyze(hash, value), createdAt))
  {
    var body: Query := map["value" := JsString(value)];
    assert "value" in body && Param(body, "value") == JsString(value);
    var record := Record(hash(value), value, Analyze(hash, value), createdAt);
    var index := new IndexServer.App(hash);
    fromIndex := index.Create(Some(body), createdAt);
    assert fromIndex == Ok(201, record);
    var controller := new Controller.ControllerApp(hash);
    fromController := controller.Create(Some(body), createdAt);
    assert fromController == Ok(201, record);
  }

  /** A falsy `value` (the empty string, `null`, `false`, `0`): index.js
      stores the empty string and refuses the others with 422, the
      controller refuses all of them with 400. */
  method FalsyValueDiffers(hash: string -> Digest, value: JsValue, createdAt: string)
    returns (fromIndex: Response<Record>, fromController: Response<Record>)
    requires !Truthy(value) && !value.JsUndefined?
    ensures value.JsString? ==> fromIndex == Ok(201, Record(hash([]), [], Analyze(hash, []), createdAt))
    ensures !value.JsString? ==> fromIndex == Error(422, IndexServer.ValueNotString)
    ensures fromController == Error(400, Controller.MissingValueField)
  {
    var body: Query := map["value" := value];
    assert "value" in body && Param(body, "value") == value;
    var index := new IndexServer.App(hash);
    fromIndex := index.Create(Some(body), createdAt);
    var controller := new Controller.ControllerApp(hash);
    fromController := controller.Create(Some(body), createdAt);
  }

  /** A query that is not a string: index.js answers 400, the controller
      fails with a `TypeError` that Express turns into a 500. */
  method ObjectQueryDiffers(hash: string -> Digest)
    returns (fromIndex: Response<IndexServer.Interpreted>, fromController: Controller.SentenceReply)
    ensures fromIndex == Error(400, IndexServer.MissingQuery)
    ensures fromController == Controller.Crashed
  {
    var index := new IndexServer.App(hash);
    var controller := new Controller.ControllerApp(hash);
    fromIndex := index.FilterByNaturalLanguage(JsObject);
    fromController := controller.NaturalLanguageFilter(JsObject);
  }

  /** "longer than N": index.js asks for at least N + 1 characters, the
      controller for more than N, which is the same for N >= 1; for N = 0
      the controller drops the filter (0 is falsy) and keeps the empty
      string, which index.js leaves out. */
  lemma LongerThanVariants(s: string, n: nat, r: Record)
    requires FindNumberAfter(s, "longer than ") == Some(n)
    ensures Interpretation(s).minLength == Some(n + 1)
    ensures ControllerInterpretation(s).minLength == Some(n)
    ensures n >= 1 ==> (Test(Interpretation(s), 1, r) <==> SentenceTest(ControllerInterpretation(s), 2, r))
    ensures n == 0 ==> SentenceTest(ControllerInterpretation(s), 2, r)
    ensures n == 0 ==> (Test(Interpretation(s), 1, r) <==> r.properties.length >= 1)
  {
  }

  /** "shorter than N": index.js keeps strings of fewer than N characters,
      the controller records N and keeps them all. */
  lemma ShorterThanVariants(s: string, n: nat, records: seq<Record>)
    requires FindNumberAfter(s, "shorter than ") == Some(n)
    ensures Interpretation(s).maxLength == Some(if n == 0 then 0 else n - 1)
    ensures ControllerInterpretation(s).maxLength == Some(n)
    ensures forall r :: Test(Interpretation(s), 2, r) <==> r.properties.length < n || r.properties.length == 0
    ensures Filter(records, SentenceMatcher(ControllerInterpretation(s)))
         == Filter(records, SentenceMatcher(ControllerInterpretation(s).(maxLength := None)))
  {
    ShorterThanNeverNarrows(records, ControllerInterpretation(s));
  }

  /** Letter case: index.js lower-cases the query and understands
      "PALINDROMIC"; the controller looks for "palindromic" as written and
      understands nothing. */
  lemma UpperCaseQueryDiffers()
    ensures Interpretation(Lower("PALINDROMIC")).isPalindrome == Some(true)
    ensures NoFilters(ControllerInterpretation("PALINDROMIC"))
  {
    IndexReadsUpperCase();
    ControllerMissesUpperCase();
  }

  lemma IndexReadsUpperCase()
    ensures Interpretation(Lower("PALINDROMIC")).isPalindrome == Some(true)
  {
    assert Lower("PALINDROMIC") == "palindromic";
    assert LiteralAt("palindromic", "palindrom", 0);
    IncludesMeaning("palindromic", "palindrom");
  }

  lemma ControllerMissesUpperCase()
    ensures NoFilters(ControllerInterpretation("PALINDROMIC"))
  {
    NoCueLetters("PALINDROMIC");
  }

  /** A query in which none of the controller's cues can start reads as
      no filter at all. */
  lemma NoCueLetters(s: string)
    requires 'p' !in s && 't' !in s && 's' !in s && 'l' !in s && 'c' !in s
    ensures NoFilters(ControllerInterpretation(s))
  {
    assert FindWordChar(s) == None by {
      MissingCharacter(s, LetterLead, 0);
      IncludesMeaning(s, LetterLead);
      FindWordCharMeaning(s);
    }
    MissingCharacter(s, "palindromic", 0);
    MissingCharacter(s, "two word", 0);
    MissingCharacter(s, "single word", 0);
    MissingCharacter(s, "longer than ", 0);
    MissingCharacter(s, "shorter than ", 0);
  }

  /** "two word": only the controller reads it, as a word count of 2, and
      it wins over "single word". */
  lemma TwoWordOverrides(s: string)
    requires Includes(s, "two word")
    ensures ControllerInterpretation(s).wordCount == Some(2)
    ensures Interpretation(s).wordCount == (if Includes(s, "single word") || Includes(s, "single-word") then Some(1) else None)
  {
  }
}
