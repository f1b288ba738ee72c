/**
 * What the handler promises: the branch a request takes, the message for
 * each label, and the error responses.
 */
module HandlerProperties {
  import opened PyText
  import opened Encoder
  import opened Handler

  /** The message and probability a response reports, whichever form it takes. */
  function Verdict(r: Response): Option<(string, real)> {
    match r
    case JsonPrediction(m, p) => Some((m, p))
    case Page(PredictionText(m, p)) => Some((m, p))
    case _ => None
  }

  /**
   * The reference pipeline: a truthy JSON body goes through the JSON
   * encoder, anything else through the form encoder, and the row goes to
   * the classifier.
   */
  function Pipeline(jsonData: Json, form: map<string, string>, clf: Classifier): Outcome<(int, real)> {
    var row := if Truthy(jsonData) then JsonVector(jsonData) else Ok(FormVector(form));
    match row
    case Raised(e) => Raised(e)
    case Ok(x) => Classify(clf, x)
  }

  /**
   * The response reports exactly what the pipeline computed: the label's
   * message and the positive-class probability when it succeeds, and the
   * exception's text, shaped by the request's content type, when it raises.
   */
  lemma PredictFollowsPipeline(jsonData: Json, isJson: bool, form: map<string, string>, clf: Classifier)
    ensures var r := Predict(jsonData, isJson, form, clf);
            match Pipeline(jsonData, form, clf)
            case Ok((predicted, p)) => Verdict(r) == Some((MessageFor(predicted), p))
            case Raised(e) => r == Failed(e, isJson) && Verdict(r) == None
  {
  }

  /**
   * An absent, unparsable, null, empty or otherwise falsy JSON body takes the
   * form branch, and a success there is always rendered as a page.
   */
  lemma FalsyBodyUsesForm(jsonData: Json, isJson: bool, form: map<string, string>, clf: Classifier)
    requires !Truthy(jsonData)
    ensures Predict(jsonData, isJson, form, clf) == Predict(JNull, isJson, form, clf)
    ensures Classify(clf, FormVector(form)).Ok? ==>
              var (predicted, p) := Classify(clf, FormVector(form)).value;
              Predict(jsonData, isJson, form, clf) == Page(PredictionText(MessageFor(predicted), p))
  {
  }

  /** In particular `{}` is treated as no JSON at all. */
  lemma EmptyObjectUsesForm(isJson: bool, form: map<string, string>, clf: Classifier)
    ensures Predict(JObj(map[]), isJson, form, clf) == Predict(JNull, isJson, form, clf)
  {
    FalsyBodyUsesForm(JObj(map[]), isJson, form, clf);
  }

  /**
   * A truthy JSON body is encoded from the body alone: the form fields of
   * the request play no part.
   */
  lemma TruthyBodyIgnoresForm(jsonData: Json, isJson: bool, f1: map<string, string>, f2: map<string, string>, clf: Classifier)
    requires Truthy(jsonData)
    ensures Predict(jsonData, isJson, f1, clf) == Predict(jsonData, isJson, f2, clf)
  {
  }

  /**
   * The successful JSON branch: a JSON body sent as JSON gets the JSON
   * answer, one sent with another content type gets the page.
   */
  lemma JsonBranchSuccess(jsonData: Json, isJson: bool, form: map<string, string>, clf: Classifier, x: seq<real>, predicted: int, p: real)
    requires Truthy(jsonData) && JsonVector(jsonData) == Ok(x) && Classify(clf, x) == Ok((predicted, p))
    ensures Predict(jsonData, isJson, form, clf)
              == if isJson then JsonPrediction(MessageFor(predicted), p) else Page(PredictionText(MessageFor(predicted), p))
  {
  }

  /**
   * The two branches map labels to messages identically: when the JSON
   * body and the form encode to the same row, both report the same message
   * and probability.
   */
  lemma SameRowSameVerdict(jsonData: Json, isJson: bool, form: map<string, string>, clf: Classifier)
    requires Truthy(jsonData) && JsonVector(jsonData) == Ok(FormVector(form))
    ensures Verdict(Predict(jsonData, isJson, form, clf)) == Verdict(Predict(JNull, false, form, clf))
  {
  }

  /** Label 0 and only label 0 is reported as the negative outcome. */
  lemma NegativeOnlyForZero(jsonData: Json, isJson: bool, form: map<string, string>, clf: Classifier)
    requires Pipeline(jsonData, form, clf).Ok?
    ensures Verdict(Predict(jsonData, isJson, form, clf)).Some?
    ensures (Verdict(Predict(jsonData, isJson, form, clf)).value.0 == NEGATIVE)
              <==> (Pipeline(jsonData, form, clf).value.0 == 0)
  {
    PredictFollowsPipeline(jsonData, isJson, form, clf);
  }

  /**
   * The probability is echoed unchanged, so a classifier whose
   * probabilities lie in [0, 1] gives responses whose probabilities do.
   */
  lemma ProbabilityInRange(jsonData: Json, isJson: bool, form: map<string, string>, clf: Classifier)
    requires forall x :: clf.positiveProbability(x).Ok? ==>
               0.0 <= clf.positiveProbability(x).value <= 1.0
    ensures Verdict(Predict(jsonData, isJson, form, clf)).Some? ==>
              0.0 <= Verdict(Predict(jsonData, isJson, form, clf)).value.1 <= 1.0
  {
    PredictFollowsPipeline(jsonData, isJson, form, clf);
  }

  /**
   * Any exception, in either branch, gives a JSON request `{"error": text}`
   * with status 400 and any other request a page reading "Error: text".
   */
  lemma ErrorShape(jsonData: Json, isJson: bool, form: map<string, string>, clf: Classifier, e: Exception)
    requires Pipeline(jsonData, form, clf) == Raised(e)
    ensures isJson ==> Predict(jsonData, isJson, form, clf) == JsonError(Describe(e))
    ensures isJson ==> Status(Predict(jsonData, isJson, form, clf)) == 400
    ensures !isJson ==> Predict(jsonData, isJson, form, clf) == Page(ErrorText("Error: " + Describe(e)))
  {
    PredictFollowsPipeline(jsonData, isJson, form, clf);
  }

  /** A status of 400 is given exactly to JSON requests whose pipeline raised. */
  lemma BadRequestOnlyOnError(jsonData: Json, isJson: bool, form: map<string, string>, clf: Classifier)
    ensures (Status(Predict(jsonData, isJson, form, clf)) == 400)
              <==> (isJson && Pipeline(jsonData, form, clf).Raised?)
  {
    PredictFollowsPipeline(jsonData, isJson, form, clf);
  }

  // ------------------------------------------------------ whole requests

  /** A body that does not parse as JSON falls through to the form branch. */
  lemma MalformedBodyUsesForm(req: Request, clf: Classifier)
    requires req.body.None?
    ensures HandleRequest(req, clf) == Predict(JNull, req.isJson, req.form, clf)
  {
  }

  /**
   * A request whose content type is not JSON always gets a page with
   * status 200, computed from its form fields alone.
   */
  lemma NonJsonRequestGetsPage(req: Request, clf: Classifier)
    requires !req.isJson
    ensures HandleRequest(req, clf).Page? && Status(HandleRequest(req, clf)) == 200
    ensures HandleRequest(req, clf) == Predict(JNull, false, req.form, clf)
  {
  }

  /**
   * The JSON encoder is reached only by JSON requests, which always get a
   * JSON answer: the page rendering inside the JSON branch is never reached
   * through `request.get_json(silent=True)`.
   */
  lemma JsonBranchAnswersJson(req: Request, clf: Classifier)
    requires Truthy(JsonBody(req))
    ensures req.isJson
    ensures HandleRequest(req, clf).JsonPrediction? || HandleRequest(req, clf).JsonError?
  {
  }

  /** The prediction and the error fields are produced only for JSON requests. */
  lemma JsonAnswersOnlyForJsonRequests(req: Request, clf: Classifier)
    ensures HandleRequest(req, clf).JsonPrediction? ==> req.isJson && Truthy(JsonBody(req))
    ensures HandleRequest(req, clf).JsonError? ==> req.isJson
  {
  }
}
