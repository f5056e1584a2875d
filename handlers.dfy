/**
  The request handlers `analyze` (POST /analyze, app.py:92-122) and
  `batch_analyze` (POST /batch, app.py:124-160) over the model object they
  share. A handler sees the parsed JSON body and answers with a status and a
  body; an exception inside the `try` becomes status 500.
*/
module Handlers {
  import opened Wrappers
  import opened PyValues
  import opened Normalizer
  import opened Estimators
  import opened Sentiment

  /** One analysed text: `{text, sentiment, confidence, scores}`. */
  datatype Analysis = Analysis(text: string, sentiment: Label, confidence: real, scores: map<Label, real>)

  datatype Response =
    | Analyzed(analysis: Analysis)                       // 200 from /analyze
    | BatchAnalyzed(count: nat, results: seq<Analysis>)  // 200 from /batch
    | BadRequest(message: string)                        // 400
    | ServerError(error: PyError)                        // 500, body `{"error": str(e)}`

  const MissingText: string := "Missing 'text' field in request body"
  const EmptyText: string := "Text cannot be empty"
  const MissingTexts: string := "Missing 'texts' field in request body"
  const TextsNotArray: string := "'texts' must be an array"

  function Status(r: Response): nat
  {
    match r
    case Analyzed(_) => 200
    case BatchAnalyzed(_, _) => 200
    case BadRequest(_) => 400
    case ServerError(_) => 500
  }

  /**
    `sentiment, scores = sentiment_model.predict(text)` followed by the response
    dict (app.py:110-117, 144-150). An exception from predict propagates. The
    response echoes the raw text and carries predict's label and scores dict;
    its confidence is the score of the predicted label, which must be a key of
    the scores dict (KeyError otherwise).
  */
  function AnalyzeText(m: SentimentModel, text: string): (r: Result<Analysis, PyError>)
    reads m
    requires m.Valid()
    ensures !m.trained ==> r == Failure(Exception(NotTrainedMessage))
    ensures m.Predict(text).Failure? ==> r == Failure(m.Predict(text).error)
    ensures m.Predict(text).Success? ==>
      && (r.Success? <==> m.Predict(text).value.sentiment in m.Predict(text).value.scores)
      && (r.Failure? ==> r.error == KeyError(m.Predict(text).value.sentiment))
    ensures r.Success? ==> m.trained && r.value.text == text
    ensures r.Success? ==>
      && r.value.sentiment == m.Predict(text).value.sentiment
      && r.value.scores == m.Predict(text).value.scores
    ensures r.Success? ==> r.value.sentiment in r.value.scores && r.value.confidence == r.value.scores[r.value.sentiment]
  {
    match m.Predict(text)
    case Failure(e) => Failure(e)
    case Success(p) =>
      if p.sentiment in p.scores then Success(Analysis(text, p.sentiment, p.scores[p.sentiment], p.scores))
      else Failure(KeyError(p.sentiment))
  }

  /** Once trained with estimators that keep scikit-learn's promises and fit
      together, analysing a text cannot fail, and the scores are keyed by exactly
      the trained classes. */
  lemma AnalyzeTextSucceeds(m: SentimentModel, text: string)
    requires m.Serving()
    ensures AnalyzeText(m, text).Success?
    ensures forall l :: l in AnalyzeText(m, text).value.scores <==> l in m.model.value.classes
  {
    CoherentScores(m.vectorizer.value, m.model.value, Normalize(text));
  }

  /**
    A trained model whose classifier was fitted on rows of another width than
    the vectorizer now produces (a classifier fit that raised after a vectorizer
    refit) raises ValueError on every text, and the handlers answer 500.
  */
  lemma MismatchedEstimatorsRaise(m: SentimentModel, text: string)
    requires m.Valid() && m.trained
    requires VectorizerCoherent(m.vectorizer.value) && m.vectorizer.value.vocabularySize != m.model.value.nFeatures
    ensures m.Predict(text) == Failure(ValueError)
    ensures AnalyzeText(m, text) == Failure(ValueError)
  {
  }

  /**
    The handler `analyze` (app.py:92-122). 400 when the body lacks a `text`
    field, 400 when the text is falsy or blank, 500 when Python raises, and
    otherwise the analysis of the raw text.
  */
  function Analyze(m: SentimentModel, data: Json): (r: Response)
    reads m
    requires m.Valid()
    ensures r == BadRequest(MissingText) <==> LookupField(data, "text").Missing?
    ensures r == BadRequest(EmptyText) <==>
      && LookupField(data, "text").Found?
      && var t := LookupField(data, "text").value; !Truthy(t) || (t.JString? && IsBlank(t.s))
    ensures r.Analyzed? ==>
      && data.JObject? && "text" in data.fields
      && data.fields["text"] == JString(r.analysis.text)
      && !IsBlank(r.analysis.text)
      && r.analysis.sentiment in r.analysis.scores
      && r.analysis.confidence == r.analysis.scores[r.analysis.sentiment]
    ensures LookupField(data, "text").Raises? ==> r == ServerError(TypeError)
    ensures LookupField(data, "text").Found? && Truthy(LookupField(data, "text").value) && !LookupField(data, "text").value.JString? ==>
      r == ServerError(AttributeError)
    ensures r.Analyzed? ==> m.trained
    ensures r.Analyzed? ==> Success(r.analysis) == AnalyzeText(m, data.fields["text"].s)
    ensures LookupField(data, "text").Found? && LookupField(data, "text").value.JString? && !IsBlank(LookupField(data, "text").value.s) ==>
      var a := AnalyzeText(m, LookupField(data, "text").value.s);
      && (a.Success? ==> r == Analyzed(a.value))
      && (a.Failure? ==> r == ServerError(a.error))
  {
    match LookupField(data, "text")
    case Missing => BadRequest(MissingText)
    case Raises(e) => ServerError(e)
    case Found(text) =>
      if !Truthy(text) then BadRequest(EmptyText)
      else if !text.JString? then ServerError(AttributeError)
      else
        StripEmptyIff(text.s);
        if |Strip(text.s)| == 0 then BadRequest(EmptyText)
        else
          match AnalyzeText(m, text.s)
          case Failure(e) => ServerError(e)
          case Success(a) => Analyzed(a)
  }

  /**
    The step of the loop at app.py:142-150 for one item: falsy and blank items
    are skipped, `strip` on a truthy item that is not a string raises
    AttributeError, and every other item is analysed.
  */
  function BatchStep(m: SentimentModel, item: Json): Result<seq<Analysis>, PyError>
    reads m
    requires m.Valid()
  {
    if !Truthy(item) then Success([])
    else if !item.JString? then Failure(AttributeError)
    else if |Strip(item.s)| == 0 then Success([])
    else
      match AnalyzeText(m, item.s)
      case Failure(e) => Failure(e)
      case Success(a) => Success([a])
  }

  /** Running two parts of the loop one after the other: the first exception
      wins, otherwise the results are appended. */
  function Join(a: Result<seq<Analysis>, PyError>, b: Result<seq<Analysis>, PyError>): Result<seq<Analysis>, PyError>
  {
    match a
    case Failure(_) => a
    case Success(x) =>
      match b
      case Failure(_) => b
      case Success(y) => Success(x + y)
  }

  /** The `results` list after the loop over `items`, or the first exception raised. */
  function BatchResults(m: SentimentModel, items: seq<Json>): Result<seq<Analysis>, PyError>
    reads m
    requires m.Valid()
    decreases |items|
  {
    if items == [] then Success([])
    else Join(BatchResults(m, items[..|items| - 1]), BatchStep(m, items[|items| - 1]))
  }

  /** What batch_analyze answers (app.py:124-160). */
  function BatchResponse(m: SentimentModel, data: Json): (r: Response)
    reads m
    requires m.Valid()
    ensures r == BadRequest(MissingTexts) <==> LookupField(data, "texts").Missing?
    ensures r == BadRequest(TextsNotArray) <==> LookupField(data, "texts").Found? && !LookupField(data, "texts").value.JArray?
    ensures r.BatchAnalyzed? ==> r.count == |r.results|
    ensures !r.Analyzed?
    ensures LookupField(data, "texts").Raises? ==> r == ServerError(TypeError)
    ensures r.BatchAnalyzed? ==>
      && LookupField(data, "texts").Found?
      && LookupField(data, "texts").value.JArray?
      && Success(r.results) == BatchResults(m, LookupField(data, "texts").value.items)
    ensures LookupField(data, "texts").Found? && LookupField(data, "texts").value.JArray? ==>
      var b := BatchResults(m, LookupField(data, "texts").value.items);
      && (b.Success? ==> r == BatchAnalyzed(|b.value|, b.value))
      && (b.Failure? ==> r == ServerError(b.error))
  {
    match LookupField(data, "texts")
    case Missing => BadRequest(MissingTexts)
    case Raises(e) => ServerError(e)
    case Found(texts) =>
      if !texts.JArray? then BadRequest(TextsNotArray)
      else
        match BatchResults(m, texts.items)
        case Failure(e) => ServerError(e)
        case Success(results) => BatchAnalyzed(|results|, results)
  }

  /** An exception raised by some prefix of the loop ends the whole loop with it. */
  lemma {:induction false} BatchFailurePersists(m: SentimentModel, items: seq<Json>, i: nat)
    requires m.Valid() && i <= |items|
    requires BatchResults(m, items[..i]).Failure?
    ensures BatchResults(m, items) == BatchResults(m, items[..i])
    decreases |items| - i
  {
    if i < |items| {
      assert items[..i + 1][..i] == items[..i];
      BatchFailurePersists(m, items, i + 1);
    } else {
      assert items[..i] == items;
    }
  }

  /**
    The loop of batch_analyze (app.py:141-150): it appends one analysis per kept
    text to `results` and stops at the first exception.
  */
  method RunBatch(m: SentimentModel, items: seq<Json>) returns (r: Result<seq<Analysis>, PyError>)
    requires m.Valid()
    ensures r == BatchResults(m, items)
  {
    var results: seq<Analysis> := [];
    for i := 0 to |items|
      invariant BatchResults(m, items[..i]) == Success(results)
    {
      assert items[..i + 1][..i] == items[..i] && items[..i + 1][i] == items[i];
      assert results + [] == results;
      var text := items[i];
      if Truthy(text) {
        if !text.JString? {
          BatchFailurePersists(m, items, i + 1);
          return Failure(AttributeError);
        }
        if |Strip(text.s)| > 0 {
          var a := AnalyzeText(m, text.s);
          if a.Failure? {
            BatchFailurePersists(m, items, i + 1);
            return Failure(a.error);
          }
          results := results + [a.value];
        }
      }
    }
    assert items[..|items|] == items;
    return Success(results);
  }

  /** The handler `batch_analyze` (app.py:124-160), step by step as the source
      runs it; BatchResponse is the same answer as a single expression, which
      the lemmas about the batch endpoint use. */
  method BatchAnalyze(m: SentimentModel, data: Json) returns (r: Response)
    requires m.Valid()
    ensures r == BatchResponse(m, data)
  {
    var lookup := LookupField(data, "texts");
    if lookup.Missing? {
      return BadRequest(MissingTexts);
    }
    if lookup.Raises? {
      return ServerError(lookup.error);
    }
    var texts := lookup.value;
    if !texts.JArray? {
      return BadRequest(TextsNotArray);
    }
    var outcome := RunBatch(m, texts.items);
    if outcome.Failure? {
      return ServerError(outcome.error);
    }
    var results := outcome.value;
    return BatchAnalyzed(|results|, results);
  }
}
