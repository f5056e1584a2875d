/**
  The fitted scikit-learn estimators the model wraps, kept abstract: a fitted
  TfidfVectorizer is its transform, a fitted LogisticRegression is its classes_,
  predict and predict_proba. Only what app.py does with their results
  (app.py:53-63) is modelled here.
*/
module Estimators {
  import opened Wrappers
  import opened PyValues

  type Label = string

  type Features = seq<real>

  /** A fitted TfidfVectorizer: the size of its vocabulary and the feature vector of one text. */
  datatype Vectorizer = Vectorizer(vocabularySize: nat, transform: string -> Features)

  /** What scikit-learn promises of a fitted vectorizer: one feature per vocabulary word. */
  ghost predicate VectorizerCoherent(v: Vectorizer)
  {
    forall t :: |v.transform(t)| == v.vocabularySize
  }

  /**
    A fitted LogisticRegression: the number of features it was fitted on
    (n_features_in_), its classes_, and predict and predict_proba on one row
    of that width.
  */
  datatype Classifier = Classifier(
    nFeatures: nat,
    classes: seq<Label>,
    predict: Features -> Label,
    predictProba: Features -> seq<real>)

  /** What one call to SentimentModel.predict returns: the predicted label and the scores dict. */
  datatype Prediction = Prediction(sentiment: Label, scores: map<Label, real>)

  predicate Distinct(labels: seq<Label>)
  {
    forall i, j :: 0 <= i < j < |labels| ==> labels[i] != labels[j]
  }

  /**
    What scikit-learn promises of a fitted classifier: classes_ holds each class
    once, and on a row of the fitted width predict returns one of them and
    predict_proba one probability per class.
  */
  ghost predicate Coherent(c: Classifier)
  {
    && Distinct(c.classes)
    && (forall x :: |x| == c.nFeatures ==> c.predict(x) in c.classes)
    && (forall x :: |x| == c.nFeatures ==> |c.predictProba(x)| == |c.classes|)
  }

  /** Both estimators keep scikit-learn's promises and the classifier was
      fitted on rows as wide as the vectorizer's vocabulary. */
  ghost predicate Compatible(v: Vectorizer, c: Classifier)
  {
    VectorizerCoherent(v) && Coherent(c) && v.vocabularySize == c.nFeatures
  }

  function Min(a: nat, b: nat): nat { if a <= b then a else b }

  /**
    `{label: float(prob) for label, prob in zip(labels, probabilities)}`
    (app.py:61): zip stops at the shorter list, and a later pair overwrites an
    earlier one with the same label.
  */
  function Scores(labels: seq<Label>, probs: seq<real>): map<Label, real>
  {
    var n := Min(|labels|, |probs|);
    ZipMap(labels[..n], probs[..n])
  }

  /** The dict built from equally long key and value lists, inserting in order. */
  function ZipMap(keys: seq<Label>, values: seq<real>): map<Label, real>
    requires |keys| == |values|
  {
    if keys == [] then map[]
    else ZipMap(keys[..|keys| - 1], values[..|values| - 1])[keys[|keys| - 1] := values[|values| - 1]]
  }

  /** The dict has exactly the zipped keys. */
  lemma {:induction false} ZipMapKeys(keys: seq<Label>, values: seq<real>)
    requires |keys| == |values|
    ensures forall l :: l in ZipMap(keys, values) <==> l in keys
  {
    if keys != [] {
      var n := |keys| - 1;
      ZipMapKeys(keys[..n], values[..n]);
      assert keys == keys[..n] + [keys[n]];
    }
  }

  /** A key that does not occur again later maps to the value paired with it. */
  lemma {:induction false} ZipMapAt(keys: seq<Label>, values: seq<real>, i: nat)
    requires |keys| == |values| && i < |keys|
    requires forall j :: i < j < |keys| ==> keys[j] != keys[i]
    ensures keys[i] in ZipMap(keys, values) && ZipMap(keys, values)[keys[i]] == values[i]
  {
    var n := |keys| - 1;
    if i < n {
      ZipMapAt(keys[..n], values[..n], i);
    }
  }

  /**
    The inference steps of SentimentModel.predict on an already normalised text
    (app.py:53-63). scikit-learn's predict and predict_proba raise ValueError on
    a row whose width is not the one the classifier was fitted on.
  */
  function Classify(v: Vectorizer, c: Classifier, processed: string): Result<Prediction, PyError>
  {
    var x := v.transform(processed);
    if |x| != c.nFeatures then Failure(ValueError)
    else Success(Prediction(c.predict(x), Scores(c.classes, c.predictProba(x))))
  }

  /**
    For estimators that keep scikit-learn's promises and fit together, classifying
    cannot raise, and the scores dict is keyed by exactly the trained classes,
    maps each class to its probability, and holds the predicted label, so
    `scores[sentiment]` cannot raise KeyError.
  */
  lemma CoherentScores(v: Vectorizer, c: Classifier, processed: string)
    requires Compatible(v, c)
    ensures Classify(v, c, processed).Success?
    ensures var p := Classify(v, c, processed).value;
      && p.sentiment in p.scores
      && (forall l :: l in p.scores <==> l in c.classes)
      && (forall i :: 0 <= i < |c.classes| ==> p.scores[c.classes[i]] == c.predictProba(v.transform(processed))[i])
  {
    var x := v.transform(processed);
    var probs := c.predictProba(x);
    assert c.classes[..|c.classes|] == c.classes && probs[..|probs|] == probs;
    ZipMapKeys(c.classes, probs);
    forall i | 0 <= i < |c.classes| ensures Scores(c.classes, probs)[c.classes[i]] == probs[i] {
      ZipMapAt(c.classes, probs, i);
    }
  }
}
