# COVID-19 prediction service: feature encoder and handler, in Dafny

The service at `POST /predict` takes a JSON body or an HTML form and turns
it into one row of numbers, one per name in the fixed feature schema, in
schema order. A pre-trained classifier labels that row. The answer goes back
as JSON or as a rendered page. This project models that path:

- `pytext.dfy` (module `PyText`): the three Python built-ins the form encoder
  relies on: `str.strip()`, `str.lower()` and `float(str)`. They cover the
  ASCII alphabet. `float()` is a partial parser that gives `None` wherever
  Python raises `ValueError`, and also for the spellings listed under
  "Left out".
- `encoder.dfy` (module `Encoder`): the schema `FEATURES`, the decoded JSON
  value `Json`, the exceptions, and the two encoders. Each encoder is a
  method with the source's `for feat in FEATURES` loop, proved against a
  specification function (`JsonVector`, `FormVector`).
- `encoder_properties.dfy` (module `EncoderProperties`): what the encoders
  promise. Rows have one entry per feature. Defaults are 0. Keys that are
  not feature names are ignored. The form field table is covered both as
  written and as it behaves.
- `handler.dfy` (module `Handler`): `predict()` as a pure function of
  - what `request.get_json(silent=True)` returned,
  - `request.is_json`,
  - `request.form`,
  - the classifier, which is a pair of abstract functions.
  
  `HandleRequest` adds Flask's rule that `get_json(silent=True)` gives
  `None` for a body that does not parse and for a request whose content
  type is not JSON.
- `handler_properties.dfy` (module `HandlerProperties`): which branch a
  request takes, the label-to-message mapping, and the error responses.

Some consequences of the code as written:

- The schema in `app.py` has 38 names (lines 15-52).
  `EncoderProperties.FeatureSchema` proves the count.
- `Handler.Predict` keeps the page branch of app.py:114-115, which
  `HandleRequest` never reaches because `get_json(silent=True)` returns
  `None` for a request that is not JSON (`Handler.JsonBody`,
  `HandlerProperties.JsonBranchAnswersJson`).
- The `"1"` and `"0"` entries of the form fallback table (app.py:81, 83, 85)
  can never be reached. Every string that normalises to `"1"` or `"0"` is
  accepted by `float()` first (`EncoderProperties.DigitEntriesUnreachable`).
  The model keeps the table as written and proves how it behaves
  (`EncoderProperties.FormSpellings`).

A JSON body need not be an object. The model follows Python for other kinds
of body:

- A truthy list or string is searched with `in`. If no feature name is
  found, the result is a row of zeros. Otherwise indexing by that name
  raises (`EncoderProperties.ListBody` for a list, `EncoderProperties.StrBody`
  for a string).
- A truthy number or `true` raises at the first `in`
  (`EncoderProperties.ScalarBodyRaises`).

## Model

| member | source | states |
|---|---|---|
| `PyText.Strip` | app.py:80 | the result is the slice of the input after its leading whitespace; everything after the slice is whitespace; the result neither starts nor ends with whitespace |
| `PyText.Lower` | app.py:80 | the length is kept; every upper-case ASCII letter becomes its lower-case form and every other character is unchanged |
| `PyText.ParseFloat` | app.py:76-77 | a string `float()` accepts consists, once stripped, only of digits, signs, points and exponent letters, and is not empty |
| `PyText.ParseDigits` | app.py:77 | a run of digits, with any surrounding whitespace, parses as the integer it spells |
| `PyText.ParseDecimal` | app.py:77 | a numeral `w.f` parses as the number it spells |
| `EncoderProperties.FalsyValues` | app.py:100 | `Truthy` (`if json_data:`) is false exactly for `None`, `False`, 0, 0.0, `""`, `[]` and `{}` |
| `Encoder.IsSubstring` | app.py:61 | `in` on a string: true whenever the name occurs at some offset, and only for names no longer than the string |
| `Encoder.IsSubstringOccurs` | app.py:61 | `in` on a string is true only when the name occurs at some offset |
| `Encoder.Contains` | app.py:61 | `feat in body` is key membership for an object, membership of the string `feat` for a list, and substring search for a string; it raises `NotIterable` of the body's type exactly for bodies that are none of these |
| `Encoder.Index` | app.py:62 | `body[feat]` succeeds exactly for objects and then gives the value under `feat`; otherwise it raises `NotIndexable` of the body's type |
| `Encoder.JsonSlot` | app.py:61-64 | for an object, the value under the name or 0 when it is absent; for any other body, 0 exactly when `in` answers false, and otherwise the exception of `in` or of indexing |
| `Encoder.JsonValues` | app.py:58-64 | the collected list has one value per feature, each the feature's lookup result; it succeeds exactly when every lookup succeeds |
| `Encoder.BuildFeatureVectorFromJson` | app.py:55-66 | the loop computes exactly `JsonVector`: the collected values converted to numbers, or the first exception raised on the way |
| `Encoder.ToFloat` | app.py:66 | numbers are kept, booleans become 1 and 0, a string converts exactly when `float()` accepts it and then to the parsed number, null, lists and objects raise `NotNumeric`, and every failure is `NotNumeric` of the value |
| `Encoder.NumericRow` | app.py:66 | the row has one number per collected value, each that value's conversion; it succeeds exactly when every value converts |
| `Encoder.Fallback` | app.py:78-88 | the lexical table gives only 0 or 1 |
| `Encoder.Row` | app.py:69-89 | the row built for a list of names has one entry per name, entry `i` being the number given to name `i` |
| `Encoder.BuildFeatureVectorFromForm` | app.py:68-89 | the loop computes exactly `FormVector`: one entry per feature, in schema order, entry `i` being what the form's field `FEATURES[i]` encodes to (`FormSlot`) |
| `EncoderProperties.FeatureSchema` | app.py:14-53 | the schema has 38 names; "Sex" is the first and occurs nowhere else |
| `EncoderProperties.ObjectValues` | app.py:59-64 | for an object and any list of names, collection never raises; entry `i` is the value under name `i`, or 0 when that key is absent |
| `EncoderProperties.JsonObjectValues` | app.py:58-64 | for an object, collection never raises; entry `i` is the value under `FEATURES[i]`, or 0 when that key is absent |
| `EncoderProperties.JsonObjectVector` | app.py:55-66 | for an object, encoding succeeds exactly when every present feature value is numeric; entry `i` is then that value as a number, or 0 when the key is absent |
| `EncoderProperties.JsonVectorLength` | app.py:58-66 | whatever the body, a row the JSON encoder returns has one entry per feature |
| `EncoderProperties.JsonIgnoresOtherKeys` | app.py:59-64 | two objects that agree on every feature name encode to the same row, or raise the same exception |
| `EncoderProperties.ScalarBodyRaises` | app.py:61 | a truthy number or `true` as the body raises "not iterable" |
| `EncoderProperties.ListBody` | app.py:59-64 | a list body raises if it contains a feature name as a string, and otherwise encodes to all zeros |
| `EncoderProperties.StrBody` | app.py:59-64 | a string body raises `NotIndexable("str")` if some feature name occurs in it, and otherwise encodes to all zeros |
| `EncoderProperties.FirstRaiseIn` | app.py:59-64 | for any list of names, the first name whose lookup raises decides the exception collection raises |
| `EncoderProperties.FirstRaise` | app.py:59-64 | the first feature whose lookup raises decides the exception the JSON encoder raises |
| `EncoderProperties.FormMissingIsZero` | app.py:71-73 | `FormSlot`, the number one field encodes to: an absent or empty field gives 0 |
| `EncoderProperties.FormParsedIsExact` | app.py:76-77 | `FormSlot`: a field `float()` accepts gives exactly the parsed number |
| `EncoderProperties.FormFallbackIsBinary` | app.py:78-88 | `FormSlot`: a non-empty field `float()` refuses goes to the lexical table and gives 0 or 1 |
| `EncoderProperties.FallbackTable` | app.py:80-88 | the table as written gives 1 exactly for male, m, 1, yes, y and true after `Normalize` (`str(raw).strip().lower()`), and 0 otherwise |
| `EncoderProperties.DigitEntriesUnreachable` | app.py:76-85 | every field that normalises to "1" or "0" is accepted by `float()` as 1 or 0, so those table entries are dead |
| `EncoderProperties.TableWordsReachFallback` | app.py:76-88 | no word of the table is accepted by `float()`, so each word reaches the table |
| `EncoderProperties.FormSpellings` | app.py:71-88 | male, m, yes, y, true and 1 give 1, and female, f and 0 give 0, in any case and with any surrounding whitespace |
| `EncoderProperties.FormIgnoresOtherKeys` | app.py:70-71 | two forms that agree on every feature name encode to the same row |
| `EncoderProperties.FormVectorShape` | app.py:69-89 | the form row has one entry per feature, entry `i` being the encoding of field `FEATURES[i]` |
| `EncoderProperties.ExampleSexMale` | app.py:68-89 | `{"Sex": "Male"}` gives 1 in the Sex position and 0 everywhere else |
| `EncoderProperties.OnePointZero` | app.py:77 | `float("1.0")` is 1 |
| `EncoderProperties.ExampleFeverOnePointZero` | app.py:76-77 | any form whose Fever field is `"1.0"` gives 1 in the Fever position, through the numeric path |
| `EncoderProperties.ExampleCoughEmpty` | app.py:72-73 | any form whose Cough field is empty gives 0 in the Cough position |
| `Handler.Classify` | app.py:102-103 | classification succeeds exactly when both the label and the probability are computed, and then returns both; an exception from `predict` is the one raised |
| `Handler.MessageFor` | app.py:106-109 | label 0 gives the negative message, and every other label gives the positive one |
| `Handler.Status` | app.py:133 | status 400 exactly for the JSON error, and 200 for every other response |
| `Handler.Failed` | app.py:130-134 | a JSON request gets the JSON error with status 400, and only a JSON request does |
| `Handler.Predict` | app.py:95-134 | a JSON answer with prediction and probability only for a JSON request with a truthy body; a JSON error only for a JSON request; an error page only otherwise; a JSON request with a truthy body never gets a page |
| `Handler.JsonBody` | app.py:98 | `get_json(silent=True)`: `None` for a request that is not JSON and for a body that does not parse, and the decoded body otherwise |
| `Handler.HandleRequest` | app.py:95-134 | a request that is not JSON gets a page with status 200; only JSON requests get JSON answers; a JSON request with a truthy body always gets a JSON answer |
| `HandlerProperties.PredictFollowsPipeline` | app.py:98-128 | the response reports the pipeline's message and probability when it succeeds, and the shaped error when it raises |
| `HandlerProperties.FalsyBodyUsesForm` | app.py:100-128 | a falsy JSON body (absent, unparsable, null, `{}`) takes the form branch, whose success is always a page |
| `HandlerProperties.EmptyObjectUsesForm` | app.py:100 | `{}` is treated as no JSON at all |
| `HandlerProperties.TruthyBodyIgnoresForm` | app.py:100-115 | with a truthy JSON body the form fields play no part |
| `HandlerProperties.JsonBranchSuccess` | app.py:100-115 | a successful JSON branch answers JSON to a JSON request and a page otherwise |
| `HandlerProperties.SameRowSameVerdict` | app.py:106-126 | both branches give the same message and probability for the same row |
| `HandlerProperties.NegativeOnlyForZero` | app.py:106-126 | a successful response reports the negative message exactly when the label is 0 |
| `HandlerProperties.ProbabilityInRange` | app.py:103-128 | the probability is echoed unchanged, so it stays in [0, 1] when the classifier's does |
| `HandlerProperties.ErrorShape` | app.py:130-134 | any exception gives a JSON request `{"error": text}` with status 400, and any other request the page "Error: text", the text being `Describe(e)`, the exception's `str(e)` |
| `HandlerProperties.BadRequestOnlyOnError` | app.py:130-134 | status 400 is given exactly to JSON requests whose pipeline raised |
| `HandlerProperties.MalformedBodyUsesForm` | app.py:98-128 | a body that does not parse as JSON falls through to the form branch |
| `HandlerProperties.NonJsonRequestGetsPage` | app.py:98-134 | a request that is not JSON always gets a page with status 200, computed from its form alone |
| `HandlerProperties.JsonBranchAnswersJson` | app.py:98-115 | only JSON requests reach the JSON encoder, and they always get a JSON answer |
| `HandlerProperties.JsonAnswersOnlyForJsonRequests` | app.py:112-133 | JSON prediction and JSON error responses are produced only for JSON requests |

## Left out

- Flask routing, `render_template`, `jsonify`, `home()` and the `PORT` startup are web plumbing and are not modelled (app.py:3, 7, 91-93, 136-139). A response is a datatype naming which of the three answers is given.
- Request parsing is a parameter. `Request` carries `is_json`, the decoded body (or `None`) and the first value of each form field. Multi-valued form fields are not modelled.
- `joblib.load` and the classifier are foreign code (app.py:10-11). The classifier is a pair of abstract functions, label and positive-class probability, either of which may raise.
- The `{proba:.2f}` formatting of the page text is float formatting (app.py:115, 128). `PredictionText` carries the message and the probability unformatted.
- `PyText.ParseFloat`: accepts an optional sign, digits with an optional point, and an optional exponent, after stripping whitespace. It does not accept `inf`, `nan`, `infinity` or `_` between digits. Numbers are exact reals, so rounding and overflow to infinity are not modelled.
- `PyText.Strip`, `PyText.Lower`: cover ASCII only. Non-ASCII whitespace is not stripped, and non-ASCII letters are not lower-cased.
- `Encoder.ToFloat`: JSON `null` is refused, where NumPy would give NaN. The classifier then rejects the NaN, so the response is an error either way, with different text.
- `Encoder.ToFloat`: lists of equal length under every feature are refused. NumPy would build a three-dimensional array, which the classifier then rejects.
- `Encoder.ToFloat`: JSON integers are converted exactly. Python would overflow on integers too large for a float.
- `Encoder.NumericRow`: raises for the first value, in feature order, that does not convert. NumPy first works out the array's shape, so a list value anywhere in the row gives "setting an array element with a sequence." even when an earlier string does not parse. Only the error text of the response differs.
- `Encoder.Describe`: follows CPython's and NumPy's wording. Messages that depend on the Python or NumPy version may differ.
