/**
 * The prediction handler: which encoder a request goes through, how the
 * classifier's answer becomes a message, and the shape of the response,
 * including the one error path shared by both branches.
 */
module Handler {
  import opened PyText
  import opened Encoder

  /**
   * The pre-trained classifier, seen from outside: the label it predicts for a
   * row and the probability it gives the positive class. Either may raise.
   */
  datatype Classifier = Classifier(
    predict: seq<real> -> Outcome<int>,
    positiveProbability: seq<real> -> Outcome<real>)

  /** `model.predict(X)[0]`, then `float(model.predict_proba(X)[0][1])`. */
  function Classify(clf: Classifier, x: seq<real>): (r: Outcome<(int, real)>)
    ensures r.Ok? <==> clf.predict(x).Ok? && clf.positiveProbability(x).Ok?
    ensures r.Ok? ==> r.value == (clf.predict(x).value, clf.positiveProbability(x).value)
    ensures r.Raised? && clf.predict(x).Raised? ==> r.exc == clf.predict(x).exc
    ensures r.Raised? && clf.predict(x).Ok? ==> r.exc == clf.positiveProbability(x).exc
  {
    match clf.predict(x)
    case Raised(e) => Raised(e)
    case Ok(predicted) =>
      match clf.positiveProbability(x)
      case Raised(e) => Raised(e)
      case Ok(p) => Ok((predicted, p))
  }

  const NEGATIVE: string := "You have not contracted COVID-19"
  const POSITIVE: string := "You most likely have contracted COVID-19"

  /** The message for a predicted label: only label 0 is the negative outcome. */
  function MessageFor(predicted: int): (m: string)
    ensures m == NEGATIVE <==> predicted == 0
    ensures m == POSITIVE <==> predicted != 0
  {
    assert NEGATIVE[4] != POSITIVE[4];
    if predicted == 0 then NEGATIVE else POSITIVE
  }

  /** The `prediction_text` a rendered page carries. */
  datatype PageText =
    | PredictionText(message: string, probability: real)  // "<message> (Probability: <p>)"
    | ErrorText(text: string)                              // "Error: <exception text>"

  datatype Response =
    | JsonPrediction(prediction: string, probability: real)  // `jsonify({"prediction", "probability"})`
    | JsonError(error: string)                               // `jsonify({"error": ...}), 400`
    | Page(text: PageText)                                   // `render_template("index.html", ...)`

  /** The HTTP status of a response. */
  function Status(r: Response): (s: int)
    ensures s == 400 <==> r.JsonError?
    ensures s == 200 <==> !r.JsonError?
  {
    if r.JsonError? then 400 else 200
  }

  /** The `except` clause: a JSON error for JSON requests, an error page otherwise. */
  function Failed(e: Exception, isJson: bool): (r: Response)
    ensures isJson <==> r.JsonError?
    ensures isJson ==> r.error == Describe(e) && Status(r) == 400
  {
    if isJson then JsonError(Describe(e)) else Page(ErrorText("Error: " + Describe(e)))
  }

  /**
   * `predict()`, given what `request.get_json(silent=True)` returned
   * (`JNull` for Python's `None`), `request.is_json` and `request.form`.
   */
  function Predict(jsonData: Json, isJson: bool, form: map<string, string>, clf: Classifier): (r: Response)
    ensures r.JsonPrediction? ==> isJson && Truthy(jsonData)
    ensures r.JsonError? ==> isJson
    ensures r.Page? && r.text.ErrorText? ==> !isJson
    ensures Truthy(jsonData) && isJson ==> !r.Page?
  {
    if Truthy(jsonData) then
      match JsonVector(jsonData)
      case Raised(e) => Failed(e, isJson)
      case Ok(x) =>
        match Classify(clf, x)
        case Raised(e) => Failed(e, isJson)
        case Ok((predicted, proba)) =>
          var message := MessageFor(predicted);
          if isJson then JsonPrediction(message, proba) else Page(PredictionText(message, proba))
    else
      match Classify(clf, FormVector(form))
      case Raised(e) => Failed(e, isJson)
      case Ok((predicted, proba)) => Page(PredictionText(MessageFor(predicted), proba))
  }

  /** A request as the handler sees it. */
  datatype Request = Request(
    isJson: bool,              // `request.is_json`: the content type is JSON
    body: Option<Json>,        // the body decoded as JSON, `None` if it does not parse
    form: map<string, string>) // `request.form`, first value per field

  /**
   * `request.get_json(silent=True)`: the decoded body for a JSON request,
   * and `None` both for a body that does not parse and for a request whose
   * content type is not JSON.
   */
  function JsonBody(req: Request): (j: Json)
    ensures !req.isJson ==> j == JNull
    ensures req.body.None? ==> j == JNull
    ensures req.isJson && req.body.Some? ==> j == req.body.value
  {
    if req.isJson && req.body.Some? then req.body.value else JNull
  }

  /** The whole of `POST /predict`. */
  function HandleRequest(req: Request, clf: Classifier): (r: Response)
    ensures !req.isJson ==> r.Page? && Status(r) == 200
    ensures r.JsonPrediction? || r.JsonError? ==> req.isJson
    ensures req.isJson && Truthy(JsonBody(req)) ==> r.JsonPrediction? || r.JsonError?
  {
    Predict(JsonBody(req), req.isJson, req.form, clf)
  }
}
