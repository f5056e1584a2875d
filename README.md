# Sentiment analysis API: a verified model of its core

This project models the core of a small Flask sentiment-analysis service
(`app.py`):

- the text normaliser `SentimentModel.preprocess_text`: lower-case it, drop
  everything but ASCII letters and whitespace, collapse each whitespace run to
  a single space, and strip the ends;
- the model object itself: a TF-IDF vectorizer, a logistic-regression
  classifier and the `trained` flag that guards `predict`;
- the two request handlers, `analyze` (POST /analyze) and `batch_analyze`
  (POST /batch), with their request validation, their 400 and 500 answers,
  and the batch loop that skips falsy or blank items.

The modules follow the program's structure:

- `Wrappers`: `Option` and `Result`.
- `Normalizer`: `preprocess_text` and its building blocks (`str.lower`, the two
  `re.sub` calls, `str.strip`), with Python's `str.isspace` set as the
  whitespace that `\s` and `strip()` see.
- `PyValues`: the parsed JSON body. It has Python's truthiness, the `in`
  test and the subscript the handlers apply (a dict, list or str body and
  scalars all behave as Python makes them), and the exceptions raised on the way.
- `Estimators`: the fitted scikit-learn estimators, kept abstract as
  functions. It also has the `scores` dict comprehension over
  `zip(classes_, probabilities)`, where zip stops at the shorter list and a
  later duplicate label overwrites an earlier one.
- `Sentiment`: `class SentimentModel` with the fields `vectorizer`, `model`
  and `trained`. `Train` is a method that updates them. `Predict` is a
  function of the object's state.
- `Handlers`: `analyze` as a function from the model and body to a response,
  and `batch_analyze` as a method whose loop is proved against the function
  `BatchResults`.
- `HandlerProperties`: lemmas relating the handlers to one another, to the
  normaliser and to the concrete requests the repository's test script sends.

Fitting is code outside the repository. `Train` therefore receives the two fit
operations as function parameters, and each fit either returns a fitted
estimator or raises. A fitted vectorizer has a vocabulary size, and a fitted
classifier has the number of features it was fitted on. A row of any other
width makes `predict` raise ValueError. The promises scikit-learn makes are
the following predicates:

- `VectorizerCoherent`: every feature vector has one entry per vocabulary word.
- `Coherent`: `classes_` holds each label once. On a row of the fitted width,
  `predict` returns one of the labels and `predict_proba` one probability per
  class.
- `VectorizerFitCoherent` and `ClassifierFitCoherent`: each fit returns
  estimators of that kind, on a training matrix of matching width.

`SentimentModel.Serving()` holds when the model is trained and its two
estimators keep these promises and agree on the width. Lemmas that need it
take it as a hypothesis. The operations themselves do not require it.

## Model

| member | source | states |
|---|---|---|
| Normalizer.LowerHasNoUpper | app.py:29 | `lower()` leaves no ASCII capital letter in the text |
| Normalizer.RemoveDisallowedKeeps | app.py:30 | `re.sub(r'[^a-zA-Z\s]', '', t)` never lengthens the text; every character left is an ASCII letter or whitespace and comes from the input |
| Normalizer.TrimStartSpec | app.py:31 | stripping the front removes exactly the leading whitespace: the result is a suffix, everything dropped is whitespace, and the result does not start with whitespace |
| Normalizer.TrimEndSpec | app.py:31 | stripping the back removes exactly the trailing whitespace: the result is a prefix, everything dropped is whitespace, and the result does not end with whitespace |
| Normalizer.CollapseCharacters | app.py:31 | after `re.sub(r'\s+', ' ', t)` every whitespace character is a plain space, and every other character comes from the input |
| Normalizer.CollapseSingleRuns | app.py:31 | the collapsed text is empty only for empty input, starts with whitespace exactly when the input does, and never has two whitespace characters in a row |
| Normalizer.LowerThenRemoveDisallowed | app.py:29-30 | after lower-casing and the first substitution only lower-case ASCII letters and whitespace remain |
| Normalizer.CollapseSingleSpaced | app.py:31 | collapsing such a text leaves lower-case letters separated by single spaces |
| Normalizer.StripSingleSpaced | app.py:31 | stripping a single-spaced text leaves no space at either end |
| Normalizer.NormalizeShape | app.py:27-32 | every output of preprocess_text has only `a`-`z` and single spaces, with no space at either end |
| Normalizer.LowerFixesLowercase | app.py:29 | `lower()` leaves lower-case letters and spaces unchanged |
| Normalizer.RemoveDisallowedFixesKept | app.py:30 | the first substitution leaves a text of letters and whitespace unchanged |
| Normalizer.CollapseFixesSingleSpaces | app.py:31 | collapsing leaves a text with only single spaces unchanged |
| Normalizer.NormalizeFixesNormalized | app.py:27-32 | every text of the normalised shape is a fixed point of preprocess_text |
| Normalizer.NormalizeIdempotent | app.py:27-32 | preprocess_text applied twice equals preprocess_text applied once |
| Normalizer.AsciiLettersLower | app.py:29 | the ASCII letters of `lower(t)` are the letters of `t` given character by character by `LetterOf` (capitals lowered, U+0130 giving `i`, U+212A giving `k`) |
| Normalizer.NonSpaceRemoveDisallowed | app.py:30 | the non-whitespace characters kept by the first substitution are exactly the input's ASCII letters, in order |
| Normalizer.NonSpaceCollapse | app.py:31 | collapsing whitespace does not change the sequence of non-whitespace characters |
| Normalizer.NonSpaceTrimStart | app.py:31 | stripping the front does not change the non-whitespace characters |
| Normalizer.NonSpaceTrimEnd | app.py:31 | stripping the back does not change the non-whitespace characters |
| Normalizer.NormalizeKeepsLetters | app.py:27-32 | the non-space characters of the output are exactly the input's letters, lower-cased and in input order |
| Normalizer.NormalizeEmptyIff | app.py:27-32 | the output is empty if and only if the input contributes no letter |
| Normalizer.NonLetterTextNormalizesToEmpty | app.py:29-31 | a text of digits, punctuation and other non-letters normalises to the empty string without error |
| Normalizer.StripEmptyIff | app.py:104 | `len(t.strip()) == 0` holds if and only if every character of `t` is whitespace |
| Normalizer.WordsTrimStart | app.py:31 | stripping the front changes none of the words (maximal non-whitespace runs) |
| Normalizer.WordsTrimEnd | app.py:31 | stripping the back changes none of the words |
| Normalizer.WordsCollapse | app.py:31 | collapsing whitespace runs changes none of the words |
| Normalizer.NormalizeKeepsWords | app.py:27-32 | the words of the output are the words of the lower-cased text after the first substitution |
| Normalizer.UnwordsOfNormalized | app.py:31 | a text of the normalised shape is its words joined by single spaces |
| Normalizer.NormalizeIsUnwords | app.py:27-32 | preprocess_text joins the words of the lower-cased, filtered text with single spaces, so each whitespace run between words becomes exactly one space |
| Normalizer.LowerRemoveDisallowedIsFiltered | app.py:29-30 | `lower()` followed by the first substitution equals the character-by-character `Filtered`: every whitespace character of the input stays in place, and every other character becomes its letters (`LetterOf`) |
| Normalizer.WordsFiltered | app.py:29-30 | the words of the lower-cased, filtered text are the letters of the input's own words, with the words that have no letter dropped |
| Normalizer.NormalizeIsWordLetters | app.py:27-32 | preprocess_text equals a definition over the input's own words: the lower-cased letters of each whitespace-separated word, the words without letters dropped, joined by single spaces |
| PyValues.LookupField | app.py:97-102 | `if not data or key not in data` followed by `data[key]`: a value is found if and only if the body is an object holding the key, and then it is that field; a falsy body is a missing field. A truthy number or boolean raises. A non-empty list raises if and only if it holds the key string, and a non-empty string raises if and only if the key is a substring. An object or null never raises, and every exception is a TypeError |
| Estimators.ZipMapKeys | app.py:61 | the dict built from `zip(labels, probabilities)` has exactly the zipped labels as keys |
| Estimators.ZipMapAt | app.py:61 | a label that does not recur later in the list maps to the probability paired with it |
| Estimators.CoherentScores | app.py:53-61 | for estimators with scikit-learn's promises that agree on the width, classifying cannot raise, and the scores dict has exactly the trained classes as keys, maps each class to its probability, and contains the predicted label |
| Sentiment.SentimentModel.constructor | app.py:22-25 | a new model has nothing fitted and is not trained |
| Sentiment.SentimentModel.Train | app.py:34-43 | the vectorizer is fitted on the normalised texts with max_features 1000 and the classifier on its matrix with max_iter 1000. The flag becomes true exactly when both fits return, and it never goes back to false. A raised exception propagates. A vectorizer fit that raises leaves every field as it was. A classifier fit that raises keeps the new vectorizer, but the old classifier and flag. When both fits keep scikit-learn's promises, a successful training leaves the model serving |
| Sentiment.SentimentModel.Predict | app.py:45-63 | an untrained model raises "Model not trained yet"; a trained one classifies the normalised text, never the raw one, and an exception from the estimators propagates |
| Sentiment.PredictOfNormalized | app.py:45-53 | predicting on an already normalised text gives the same prediction as on the raw text |
| Handlers.AnalyzeText | app.py:110-117 | untrained gives "Model not trained yet", and any exception from predict propagates. After a successful predict, the text is analysed if and only if the predicted label is a key of the scores dict, and KeyError is raised otherwise. A success echoes the raw text, carries predict's label and scores dict, and its confidence is that label's entry in the dict |
| Handlers.AnalyzeTextSucceeds | app.py:110-117 | with a serving model, analysing a text cannot raise, and the scores are keyed by exactly the classes |
| Handlers.MismatchedEstimatorsRaise | app.py:53-57 | when the trained vectorizer's width differs from the classifier's, predict raises ValueError on every text and so does the analysis |
| Handlers.Analyze | app.py:92-122 | 400 "Missing 'text' field…" if and only if the lookup finds no field; 400 "Text cannot be empty" if and only if the field is falsy or a blank string; 500 TypeError when the `in` test or subscript raises; 500 AttributeError for a truthy non-string. For a non-blank string field the answer is 200 with the analysis of that text (label, scores dict and confidence as `AnalyzeText` gives them), or 500 with the exception it raised. A 200 answer comes from a trained model and echoes the field |
| Handlers.BatchResponse | app.py:124-160 | 400 "Missing 'texts' field…" if and only if the lookup finds no field; 400 "'texts' must be an array" if and only if the field is found and is not a list; a lookup that raises answers 500 TypeError; for a list, a 200 answer's results are exactly the loop's results (`BatchResults`) and the loop's exception otherwise answers 500; a 200 answer has `count == len(results)`; the batch never answers in the single-text form |
| Handlers.BatchFailurePersists | app.py:141-150 | once a prefix of the loop raises, the whole loop ends with that exception |
| Handlers.RunBatch | app.py:141-150 | the loop appends one analysis per kept item and stops at the first exception; its outcome equals `BatchResults` (invariant: `results` is the outcome on the processed prefix) |
| Handlers.BatchAnalyze | app.py:124-160 | the handler answers exactly `BatchResponse` |
| HandlerProperties.BatchStepSpec | app.py:142-150 | one loop step succeeds if and only if the item is a string or falsy and its kept text, if any, can be analysed; it then yields exactly that text's analysis |
| HandlerProperties.BatchResultsAreKeptTexts | app.py:141-150 | a completed loop yields one result per non-blank string item, in input order, each the analysis of that text alone |
| HandlerProperties.BatchSucceedsIff | app.py:141-150 | the loop completes if and only if no item is a truthy non-string and every kept text can be analysed |
| HandlerProperties.BatchResultsConcat | app.py:142-150 | items are processed independently: the outcome for `a + b` is the outcome for `a` followed by that for `b`, and the first exception in list order wins |
| HandlerProperties.BatchAnswersWhenTrained | app.py:124-155 | a well-formed batch to a serving model answers 200 with one result per kept text, in input order, each being that text's own analysis (its text, label, scores and confidence) |
| HandlerProperties.BatchSkipsBlankTexts | app.py:142-143 | `{"texts": ["", b, g]}` with `b` blank and `g` not, such as `["", "   ", "good"]`, answers with count 1 and the single result for `g` |
| HandlerProperties.BatchConfidenceIsOwnScore | app.py:144-150 | every batch result's confidence is its own predicted label's score |
| HandlerProperties.AnalyzeAcceptsNonBlankText | app.py:102-117 | `{"text": s}` with a non-blank `s` to a serving model answers 200 and echoes `s`. It carries the label and scores dict the classifier gives for the normalised `s`, and the label's score as confidence |
| HandlerProperties.AnalyzeBeforeTraining | app.py:45-47 | before training, a well-formed request answers 500 with "Model not trained yet" |
| HandlerProperties.AnalyzeRejectsMalformedRequests | app.py:97-107 | empty text, whitespace-only text, an empty body, a wrong field name and a null body all answer 400 |
| HandlerProperties.BatchRejectsMalformedRequests | app.py:129-139 | an empty body or a wrong field answers 400 "Missing 'texts'…"; a string or null `texts` answers 400 "'texts' must be an array"; an empty list answers 200 with count 0 |
| HandlerProperties.DigitsOnlyTextIsClassified | app.py:104-110 | a digits-only text such as "123456789" normalises to the empty string, yet passes the blank check and is classified with status 200 |

## Left out

- scikit-learn is not modelled. TF-IDF weighting, logistic-regression fitting,
  `predict` and `predict_proba` are abstract functions. No claim is made about
  probabilities summing to 1, about the prediction being the arg-max, or about
  training being deterministic.
- Fit failures are whatever exception the abstract fit returns. The library's
  own conditions, such as a single-class corpus or an empty vocabulary, are
  not modelled.
- Flask is not modelled: routing, `jsonify`, CORS, the `/` and `/health`
  endpoints, and `app.run`.
- Request decoding is not modelled. The handlers receive an already parsed
  JSON value. Malformed JSON and a body that is not JSON are outside the model.
- Loading the dataset file and the training at import time are not modelled.
  These are file I/O plus a call to `Train`.
- Exception messages: the generic `except Exception` to 500 mapping is kept,
  but `str(e)` is modelled only for "Model not trained yet". The other
  exceptions are identified by kind: TypeError, AttributeError, KeyError,
  ValueError.
- Train: a fit that raises is modelled as leaving its own estimator as it
  was. Partial updates that scikit-learn might make inside a failing fit are
  not modelled. The state after a raising classifier fit is modelled as it
  is: new vectorizer, old classifier, old flag. `MismatchedEstimatorsRaise`
  shows that `predict` then raises when the widths differ.
- Case mapping: the full Unicode case tables of `str.lower()` are not modelled.
  ASCII capitals are mapped, and so are the only two non-ASCII characters
  whose lower-case form contains an ASCII letter: U+0130 becomes `i` followed
  by U+0307, and U+212A becomes `k`. Every other non-ASCII character is left
  as it is. The next substitution removes those characters anyway.
- Numbers in the JSON body and the scores are `real`. Floating-point rounding
  is not modelled.
- The unused imports (`pickle`, `numpy`, `train_test_split`) and the warnings
  filter are not modelled.
- Lone surrogates: characters are Unicode scalar values, so the code points
  U+D800 to U+DFFF, which `json.loads` can put into a Python str from a `\ud800`
  escape and which the handlers echo back, cannot be represented.

## Notes

- The batch loop skips items whose raw `strip()` is empty. It does not skip
  texts that normalise to empty, so "123456789" is classified, as
  `DigitsOnlyTextIsClassified` shows for the single-text handler.
