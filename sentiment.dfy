/**
  SentimentModel (app.py:21-63): a normaliser in front of a TF-IDF vectorizer
  and a logistic-regression classifier, with a `trained` flag that guards
  inference. Fitting is foreign code and enters Train as two functions.
*/
module Sentiment {
  import opened Wrappers
  import opened PyValues
  import opened Normalizer
  import opened Estimators

  /** TfidfVectorizer(max_features=1000) (app.py:23). */
  const MaxFeatures: nat := 1000

  /** LogisticRegression(max_iter=1000) (app.py:24). */
  const MaxIter: nat := 1000

  /** The message predict raises before training (app.py:47). */
  const NotTrainedMessage: string := "Model not trained yet"

  /** `vectorizer.fit_transform(texts)` for a given max_features: the fitted
      vectorizer with the training matrix, or the exception it raises. */
  type VectorizerFit = (nat, seq<string>) -> Result<(Vectorizer, seq<Features>), PyError>

  /** `model.fit(X, labels)` for a given max_iter: the fitted classifier, or the
      exception it raises. */
  type ClassifierFit = (nat, seq<Features>, seq<Label>) -> Result<Classifier, PyError>

  /**
    What scikit-learn promises of fit_transform: a fitted vectorizer that keeps
    its promises, and a training matrix with one row of its vocabulary's width
    per text.
  */
  ghost predicate VectorizerFitCoherent(fit: VectorizerFit)
  {
    forall n, texts :: fit(n, texts).Success? ==>
      && VectorizerCoherent(fit(n, texts).value.0)
      && |fit(n, texts).value.1| == |texts|
      && forall i :: 0 <= i < |fit(n, texts).value.1| ==> |fit(n, texts).value.1[i]| == fit(n, texts).value.0.vocabularySize
  }

  /**
    What scikit-learn promises of fit: it raises on an empty matrix, and a
    fitted classifier keeps its promises and expects rows as wide as the
    training rows.
  */
  ghost predicate ClassifierFitCoherent(fit: ClassifierFit)
  {
    forall n, x, labels :: fit(n, x, labels).Success? ==>
      && x != []
      && Coherent(fit(n, x, labels).value)
      && forall i :: 0 <= i < |x| ==> |x[i]| == fit(n, x, labels).value.nFeatures
  }

  /** `[self.preprocess_text(t) for t in texts]` (app.py:36). */
  function NormalizeAll(texts: seq<string>): seq<string>
  {
    seq(|texts|, i requires 0 <= i < |texts| => Normalize(texts[i]))
  }

  class SentimentModel {
    /** The vectorizer's fitted state; None until fit_transform first returns. */
    var vectorizer: Option<Vectorizer>
    /** The classifier's fitted state; None until fit first returns. */
    var model: Option<Classifier>
    var trained: bool

    /** While trained, both estimators are fitted. */
    ghost predicate Valid()
      reads this
    {
      trained ==> vectorizer.Some? && model.Some?
    }

    /** Trained, with estimators that keep scikit-learn's promises and fit together. */
    ghost predicate Serving()
      reads this
    {
      Valid() && trained && Compatible(vectorizer.value, model.value)
    }

    /** SentimentModel.__init__ (app.py:22-25): nothing fitted, not trained. */
    constructor ()
      ensures Valid()
      ensures !trained && vectorizer.None? && model.None?
    {
      vectorizer := None;
      model := None;
      trained := false;
    }

    /**
      SentimentModel.train (app.py:34-43). The flag becomes true only after both
      fits return; an exception from either fit propagates and leaves the flag as
      it was (a failing classifier fit still leaves the vectorizer refitted), and
      nothing ever sets the flag back to false.
    */
    method Train(texts: seq<string>, labels: seq<Label>, fitVectorizer: VectorizerFit, fitClassifier: ClassifierFit)
      returns (r: Result<(), PyError>)
      requires Valid()
      modifies this
      ensures Valid()
      ensures old(trained) ==> trained
      ensures trained <==> old(trained) || r.Success?
      ensures var fv := fitVectorizer(MaxFeatures, NormalizeAll(texts));
        if fv.Failure? then
          r == Failure(fv.error) && vectorizer == old(vectorizer) && model == old(model) && trained == old(trained)
        else
          var fc := fitClassifier(MaxIter, fv.value.1, labels);
          && vectorizer == Some(fv.value.0)
          && (fc.Failure? ==> r == Failure(fc.error) && model == old(model) && trained == old(trained))
          && (fc.Success? ==> r == Success(()) && model == Some(fc.value) && trained)
      ensures VectorizerFitCoherent(fitVectorizer) && ClassifierFitCoherent(fitClassifier) && r.Success? ==> Serving()
    {
      var processed := NormalizeAll(texts);
      var fitted := fitVectorizer(MaxFeatures, processed);
      if fitted.Failure? {
        return Failure(fitted.error);
      }
      vectorizer := Some(fitted.value.0);
      var x := fitted.value.1;
      var classifier := fitClassifier(MaxIter, x, labels);
      if classifier.Failure? {
        return Failure(classifier.error);
      }
      if VectorizerFitCoherent(fitVectorizer) && ClassifierFitCoherent(fitClassifier) {
        assert x != [];
        assert |x[0]| == fitted.value.0.vocabularySize && |x[0]| == classifier.value.nFeatures;
      }
      model := Some(classifier.value);
      trained := true;
      return Success(());
    }

    /**
      SentimentModel.predict (app.py:45-63). It raises "Model not trained yet"
      when the flag is false; otherwise the classifier sees the normalised text,
      never the raw one, and whatever the estimators raise propagates.
    */
    function Predict(text: string): (r: Result<Prediction, PyError>)
      reads this
      requires Valid()
      ensures !trained ==> r == Failure(Exception(NotTrainedMessage))
      ensures trained ==> r == Classify(vectorizer.value, model.value, Normalize(text))
    {
      if !trained then Failure(Exception(NotTrainedMessage))
      else Classify(vectorizer.value, model.value, Normalize(text))
    }
  }

  /** Normalising before predict changes nothing, because preprocess_text is idempotent. */
  lemma PredictOfNormalized(m: SentimentModel, text: string)
    requires m.Valid()
    ensures m.Predict(Normalize(text)) == m.Predict(text)
  {
    NormalizeIdempotent(text);
  }
}
