/** Properties of the two handlers. */
module HandlerProperties {
  import opened Wrappers
  import opened PyValues
  import opened Normalizer
  import opened Estimators
  import opened Sentiment
  import opened Handlers

  /** The text one item contributes to the results: itself when it is a string
      whose strip() is non-empty, nothing otherwise. */
  function KeptOf(item: Json): seq<string>
  {
    if item.JString? && !IsBlank(item.s) then [item.s] else []
  }

  /** The texts the loop analyses, in input order. */
  function KeptTexts(items: seq<Json>): seq<string>
  {
    if items == [] then [] else KeptTexts(items[..|items| - 1]) + KeptOf(items[|items| - 1])
  }

  /** `text.strip()` cannot raise on an item that is a string or falsy. */
  predicate Strippable(item: Json)
  {
    item.JString? || !Truthy(item)
  }

  predicate AllStrippable(items: seq<Json>)
  {
    forall i :: 0 <= i < |items| ==> Strippable(items[i])
  }

  /** Every text of the list can be analysed without an exception. */
  predicate AllAnalysable(m: SentimentModel, texts: seq<string>)
    reads m
    requires m.Valid()
  {
    forall k :: 0 <= k < |texts| ==> AnalyzeText(m, texts[k]).Success?
  }

  /** rs holds, position by position, the analyses of texts. */
  predicate AnalysesOf(m: SentimentModel, rs: seq<Analysis>, texts: seq<string>)
    reads m
    requires m.Valid()
  {
    |rs| == |texts| && forall k :: 0 <= k < |texts| ==> AnalyzeText(m, texts[k]).Success? && AnalyzeText(m, texts[k]).value == rs[k]
  }

  /** One step of the loop succeeds exactly when the item is strippable and its
      kept text, if any, can be analysed; it then yields that text's analysis. */
  lemma BatchStepSpec(m: SentimentModel, item: Json)
    requires m.Valid()
    ensures BatchStep(m, item).Success? <==> Strippable(item) && AllAnalysable(m, KeptOf(item))
    ensures BatchStep(m, item).Success? ==> AnalysesOf(m, BatchStep(m, item).value, KeptOf(item))
  {
    if item.JString? && Truthy(item) {
      StripEmptyIff(item.s);
      if !IsBlank(item.s) {
        assert KeptOf(item) == [item.s] && [item.s][0] == item.s;
        assert AllAnalysable(m, [item.s]) <==> AnalyzeText(m, item.s).Success?;
      }
    } else if !item.JString? {
      assert KeptOf(item) == [];
    } else {
      assert item.s == [] && KeptOf(item) == [];
    }
  }

  lemma AnalysesOfConcat(m: SentimentModel, r1: seq<Analysis>, t1: seq<string>, r2: seq<Analysis>, t2: seq<string>)
    requires m.Valid()
    requires AnalysesOf(m, r1, t1) && AnalysesOf(m, r2, t2)
    ensures AnalysesOf(m, r1 + r2, t1 + t2)
  {
    forall k | 0 <= k < |t1| + |t2|
      ensures AnalyzeText(m, (t1 + t2)[k]).Success? && AnalyzeText(m, (t1 + t2)[k]).value == (r1 + r2)[k]
    {
      if k < |t1| {
        assert (t1 + t2)[k] == t1[k] && (r1 + r2)[k] == r1[k];
      } else {
        assert (t1 + t2)[k] == t2[k - |t1|] && (r1 + r2)[k] == r2[k - |t1|];
      }
    }
  }

  lemma AllAnalysableConcat(m: SentimentModel, t1: seq<string>, t2: seq<string>)
    requires m.Valid()
    ensures AllAnalysable(m, t1 + t2) <==> AllAnalysable(m, t1) && AllAnalysable(m, t2)
  {
    assert forall k :: 0 <= k < |t1| ==> (t1 + t2)[k] == t1[k];
    assert forall k :: 0 <= k < |t2| ==> (t1 + t2)[|t1| + k] == t2[k];
  }

  lemma AllStrippableSnoc(items: seq<Json>)
    requires items != []
    ensures AllStrippable(items) <==> AllStrippable(items[..|items| - 1]) && Strippable(items[|items| - 1])
  {
    assert forall i :: 0 <= i < |items| - 1 ==> items[..|items| - 1][i] == items[i];
  }

  /**
    When the loop completes, `results` holds one entry per kept text, in input
    order, and each entry is the analysis of that text alone: what is reported
    for an item does not depend on the other items of the list.
  */
  lemma {:induction false} BatchResultsAreKeptTexts(m: SentimentModel, items: seq<Json>)
    requires m.Valid()
    requires BatchResults(m, items).Success?
    ensures AnalysesOf(m, BatchResults(m, items).value, KeptTexts(items))
    decreases |items|
  {
    if items != [] {
      var n := |items| - 1;
      BatchResultsAreKeptTexts(m, items[..n]);
      BatchStepSpec(m, items[n]);
      AnalysesOfConcat(m, BatchResults(m, items[..n]).value, KeptTexts(items[..n]),
                          BatchStep(m, items[n]).value, KeptOf(items[n]));
    }
  }

  /**
    The loop completes exactly when no item makes strip() raise and every kept
    text can be analysed; otherwise the handler answers 500.
  */
  lemma {:induction false} BatchSucceedsIff(m: SentimentModel, items: seq<Json>)
    requires m.Valid()
    ensures BatchResults(m, items).Success? <==> AllStrippable(items) && AllAnalysable(m, KeptTexts(items))
    decreases |items|
  {
    if items != [] {
      var n := |items| - 1;
      BatchSucceedsIff(m, items[..n]);
      BatchStepSpec(m, items[n]);
      AllStrippableSnoc(items);
      AllAnalysableConcat(m, KeptTexts(items[..n]), KeptOf(items[n]));
    }
  }

  lemma JoinAssociative(a: Result<seq<Analysis>, PyError>, b: Result<seq<Analysis>, PyError>, c: Result<seq<Analysis>, PyError>)
    ensures Join(Join(a, b), c) == Join(a, Join(b, c))
  {
    if a.Success? && b.Success? && c.Success? {
      assert a.value + b.value + c.value == a.value + (b.value + c.value);
    }
  }

  /**
    Items are processed independently: the results for a concatenated list are
    the results for the first part followed by those for the second, and the
    first exception in list order wins.
  */
  lemma {:induction false} BatchResultsConcat(m: SentimentModel, a: seq<Json>, b: seq<Json>)
    requires m.Valid()
    ensures BatchResults(m, a + b) == Join(BatchResults(m, a), BatchResults(m, b))
    decreases |b|
  {
    var ra := BatchResults(m, a);
    if b == [] {
      assert a + b == a;
      if ra.Success? {
        assert ra.value + [] == ra.value;
      }
    } else {
      var n := |b| - 1;
      BatchResultsConcat(m, a, b[..n]);
      assert (a + b)[..|a + b| - 1] == a + b[..n];
      assert (a + b)[|a + b| - 1] == b[n];
      JoinAssociative(ra, BatchResults(m, b[..n]), BatchStep(m, b[n]));
    }
  }

  /** A well-formed batch request answers 200 with `count == len(results)`
      once the model serves: trained, with estimators that fit together. */
  lemma BatchAnswersWhenTrained(m: SentimentModel, data: Json, items: seq<Json>)
    requires m.Serving()
    requires data.JObject? && "texts" in data.fields && data.fields["texts"] == JArray(items)
    requires AllStrippable(items)
    ensures var r := BatchResponse(m, data);
      && r.BatchAnalyzed?
      && r.count == |r.results| == |KeptTexts(items)|
      && forall k :: 0 <= k < r.count ==> r.results[k].text == KeptTexts(items)[k]
    ensures AnalysesOf(m, BatchResponse(m, data).results, KeptTexts(items))
  {
    forall k | 0 <= k < |KeptTexts(items)| ensures AnalyzeText(m, KeptTexts(items)[k]).Success? {
      AnalyzeTextSucceeds(m, KeptTexts(items)[k]);
    }
    BatchSucceedsIff(m, items);
    BatchResultsAreKeptTexts(m, items);
  }

  /** Of `["", b, g]` with b blank and g not, only g is kept. */
  lemma KeptTextsOfSample(b: string, g: string)
    requires IsBlank(b) && !IsBlank(g)
    ensures KeptTexts([JString(""), JString(b), JString(g)]) == [g]
  {
    var items := [JString(""), JString(b), JString(g)];
    assert items[..2] == [JString(""), JString(b)] && items[..2][..1] == [JString("")] && items[..2][..1][..0] == [];
    assert KeptTexts(items[..2][..1]) == [];
    assert KeptTexts(items[..2]) == [];
  }

  /**
    `{"texts": ["", b, g]}` with b blank and g not, as in `["", "   ", "good"]`:
    only g is analysed.
  */
  lemma BatchSkipsBlankTexts(m: SentimentModel, b: string, g: string)
    requires m.Serving()
    requires IsBlank(b) && !IsBlank(g)
    ensures var r := BatchResponse(m, JObject(map["texts" := JArray([JString(""), JString(b), JString(g)])]));
      r.BatchAnalyzed? && r.count == 1 && r.results[0].text == g
  {
    var items := [JString(""), JString(b), JString(g)];
    KeptTextsOfSample(b, g);
    assert AllStrippable(items);
    BatchAnswersWhenTrained(m, JObject(map["texts" := JArray(items)]), items);
  }

  /** Every analysis the batch reports carries its own score as confidence. */
  lemma BatchConfidenceIsOwnScore(m: SentimentModel, data: Json)
    requires m.Valid()
    ensures var r := BatchResponse(m, data);
      r.BatchAnalyzed? ==> forall k :: 0 <= k < |r.results| ==>
        r.results[k].sentiment in r.results[k].scores && r.results[k].confidence == r.results[k].scores[r.results[k].sentiment]
  {
    var r := BatchResponse(m, data);
    if r.BatchAnalyzed? {
      var items := LookupField(data, "texts").value.items;
      BatchResultsAreKeptTexts(m, items);
    }
  }

  /** The single-text request `{"text": s}`. */
  function TextRequest(s: string): Json
  {
    JObject(map["text" := JString(s)])
  }

  /**
    A non-blank text in a well-formed request is analysed (status 200) by a
    model that serves; the classifier gets its normalised form and the answer
    carries the label and scores dict it returns.
  */
  lemma AnalyzeAcceptsNonBlankText(m: SentimentModel, s: string)
    requires m.Serving()
    requires !IsBlank(s)
    ensures var r := Analyze(m, TextRequest(s));
      && r.Analyzed?
      && Status(r) == 200
      && r.analysis.text == s
      && Classify(m.vectorizer.value, m.model.value, Normalize(s)) == Success(Prediction(r.analysis.sentiment, r.analysis.scores))
      && r.analysis.confidence == r.analysis.scores[r.analysis.sentiment]
  {
    var data := TextRequest(s);
    assert LookupField(data, "text") == Found(JString(s));
    StripEmptyIff(s);
    AnalyzeTextSucceeds(m, s);
    var a := AnalyzeText(m, s);
    assert Truthy(JString(s));
    assert Analyze(m, data) == Analyzed(a.value);
  }

  /** Before training, a well-formed request answers 500 with "Model not trained yet". */
  lemma AnalyzeBeforeTraining(m: SentimentModel, s: string)
    requires m.Valid() && !m.trained
    requires !IsBlank(s)
    ensures Analyze(m, TextRequest(s)) == ServerError(Exception(NotTrainedMessage))
  {
    StripEmptyIff(s);
    assert s != [];
  }

  /** A batch body without a `texts` list: no field, a wrong field, a string in its place. */
  lemma BatchRejectsMalformedRequests(m: SentimentModel)
    requires m.Valid()
    ensures BatchResponse(m, JObject(map[])) == BadRequest(MissingTexts)
    ensures BatchResponse(m, JObject(map["text" := JString("good")])) == BadRequest(MissingTexts)
    ensures BatchResponse(m, JObject(map["texts" := JString("good")])) == BadRequest(TextsNotArray)
    ensures BatchResponse(m, JObject(map["texts" := JNull])) == BadRequest(TextsNotArray)
    ensures BatchResponse(m, JObject(map["texts" := JArray([])])) == BatchAnalyzed(0, [])
  {
  }

  /** The error-handling requests: empty text, whitespace only, no field, a wrong field. */
  lemma AnalyzeRejectsMalformedRequests(m: SentimentModel)
    requires m.Valid()
    ensures Analyze(m, TextRequest("")) == BadRequest(EmptyText)
    ensures Analyze(m, TextRequest("   ")) == BadRequest(EmptyText)
    ensures Analyze(m, JObject(map[])) == BadRequest(MissingText)
    ensures Analyze(m, JObject(map["wrong_field" := JString("test")])) == BadRequest(MissingText)
    ensures Status(Analyze(m, JNull)) == 400
  {
    assert LookupField(TextRequest(""), "text") == Found(JString(""));
    assert LookupField(TextRequest("   "), "text") == Found(JString("   "));
    assert IsBlank("   ");
    assert LookupField(JObject(map["wrong_field" := JString("test")]), "text") == Missing;
  }

  /**
    A text of digits only, such as "123456789", has no letter, so it normalises
    to the empty string; yet it is not blank, so /analyze still classifies it
    and answers 200.
  */
  lemma DigitsOnlyTextIsClassified(m: SentimentModel, s: string)
    requires m.Serving()
    requires s != [] && forall i :: 0 <= i < |s| ==> '0' <= s[i] <= '9'
    ensures Normalize(s) == []
    ensures Analyze(m, TextRequest(s)).Analyzed?
  {
    assert Normalize(s) == [] by {
      NonLetterTextNormalizesToEmpty(s);
    }
    assert Analyze(m, TextRequest(s)).Analyzed? by {
      assert !IsBlank(s) by { assert !IsWhitespace(s[0]); }
      AnalyzeAcceptsNonBlankText(m, s);
    }
  }
}
