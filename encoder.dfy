/**
 * The feature encoder: the fixed schema of feature names and the two
 * functions that turn a request's JSON body or its form fields into one row
 * of numbers, one per feature name, in schema order.
 */
module Encoder {
  import opened PyText

  /** The feature names, in the order the classifier was trained on. */
  const FEATURES: seq<string> := [
    "Sex",
    "Birth Year",
    "Chest pain",
    "Chills or sweats",
    "Confused or disoriented",
    "Cough",
    "Diarrhea",
    "Difficulty breathing or Dyspnea",
    "Fatigue or general weakness",
    "Fever",
    "Fluid in lung cavity in auscultation",
    "Fluid in cavity through X-Ray",
    "Headache",
    "Joint pain or arthritis",
    "Thorax (sore throat)",
    "Muscle pain",
    "Nausea",
    "Other clinical symptoms",
    "Rapid breathing",
    "Runny nose",
    "Maculopapular rash",
    "Sore throat or pharyngitis",
    "Bleeding or bruising",
    "Vomiting",
    "Abnormal lung X-Ray findings",
    "Conjunctivitis",
    "Acute respiratory distress syndrome",
    "Pneumonia (clinical or radiologic)",
    "Loss of Taste",
    "Loss of Smell",
    "Cough with sputum",
    "Cough with heamoptysis",
    "Enlarged lymph nodes",
    "Wheezing",
    "Skin ulcers",
    "Inability to walk",
    "Indrawing of chest wall",
    "Other complications"
  ]

  /** A decoded JSON value, as Python's `json` module returns it. */
  datatype Json =
    | JNull
    | JBool(b: bool)
    | JInt(i: int)
    | JFloat(x: real)
    | JStr(s: string)
    | JArr(items: seq<Json>)
    | JObj(fields: map<string, Json>)

  /** Python's truth value of a decoded JSON value (`if json_data:`). */
  predicate Truthy(j: Json) {
    match j
    case JNull => false
    case JBool(b) => b
    case JInt(i) => i != 0
    case JFloat(x) => x != 0.0
    case JStr(s) => s != ""
    case JArr(items) => items != []
    case JObj(fields) => fields != map[]
  }

  /** Python's name for the type of a decoded JSON value. */
  function TypeName(j: Json): string {
    match j
    case JNull => "NoneType"
    case JBool(_) => "bool"
    case JInt(_) => "int"
    case JFloat(_) => "float"
    case JStr(_) => "str"
    case JArr(_) => "list"
    case JObj(_) => "dict"
  }

  /** The exceptions that encoding and classification can raise. */
  datatype Exception =
    | NotIterable(typeName: string)   // `feat in body` on a number, a bool or None
    | NotIndexable(typeName: string)  // `body[feat]` on a list or a str
    | NotNumeric(value: Json)         // numpy's conversion of a collected value to float
    | ClassifierError(text: string)   // raised inside the classifier

  /** `str(e)`, in the wording of CPython and NumPy. */
  function Describe(e: Exception): string {
    match e
    case NotIterable(t) => "argument of type '" + t + "' is not iterable"
    case NotIndexable(t) =>
      if t == "str" then "string indices must be integers, not 'str'"
      else t + " indices must be integers or slices, not str"
    case NotNumeric(v) =>
      (match v
       case JStr(s) => "could not convert string to float: '" + s + "'"
       case JArr(_) => "setting an array element with a sequence."
       case _ => "float() argument must be a string or a real number, not '" + TypeName(v) + "'")
    case ClassifierError(text) => text
  }

  /** A computation that either returns a value or raises. */
  datatype Outcome<+T> = Ok(value: T) | Raised(exc: Exception)

  /** `p in s` for two strings: `p` occurs in `s` at some offset. */
  predicate IsSubstring(p: string, s: string)
    ensures IsSubstring(p, s) ==> |p| <= |s|
    ensures forall k :: 0 <= k <= |s| && p <= s[k..] ==> IsSubstring(p, s)
  {
    p <= s
    || (s != [] &&
        assert forall k :: 1 <= k <= |s| ==> s[k..] == s[1..][k - 1..];
        IsSubstring(p, s[1..]))
  }

  /** `p in s` holds only when `p` occurs in `s` at some offset. */
  lemma {:induction false} IsSubstringOccurs(p: string, s: string)
    requires IsSubstring(p, s)
    ensures exists k :: 0 <= k <= |s| && p <= s[k..]
  {
    if p <= s {
      assert s[0..] == s;
    } else {
      IsSubstringOccurs(p, s[1..]);
      var k :| 0 <= k <= |s[1..]| && p <= s[1..][k..];
      assert s[k + 1..] == s[1..][k..];
    }
  }

  /** `feat in body`. */
  function Contains(body: Json, feat: string): (r: Outcome<bool>)
    ensures body.JObj? ==> r == Ok(feat in body.fields)
    ensures body.JArr? ==> r == Ok(JStr(feat) in body.items)
    ensures body.JStr? ==> r == Ok(IsSubstring(feat, body.s))
    ensures r.Raised? <==> !(body.JObj? || body.JArr? || body.JStr?)
    ensures r.Raised? ==> r.exc == NotIterable(TypeName(body))
  {
    match body
    case JObj(fields) => Ok(feat in fields)
    case JArr(items) => Ok(JStr(feat) in items)
    case JStr(s) => Ok(IsSubstring(feat, s))
    case _ => Raised(NotIterable(TypeName(body)))
  }

  /** `body[feat]`, once `feat in body` has held. */
  function Index(body: Json, feat: string): (r: Outcome<Json>)
    requires Contains(body, feat) == Ok(true)
    ensures r.Ok? <==> body.JObj?
    ensures body.JObj? ==> r == Ok(body.fields[feat])
    ensures r.Raised? ==> r.exc == NotIndexable(TypeName(body))
  {
    match body
    case JObj(fields) => Ok(fields[feat])
    case _ => Raised(NotIndexable(TypeName(body)))
  }

  /** The value the JSON encoder collects for one feature: the body's value, or 0. */
  function JsonSlot(body: Json, feat: string): (r: Outcome<Json>)
    ensures body.JObj? ==> r == Ok(if feat in body.fields then body.fields[feat] else JInt(0))
    ensures !body.JObj? ==> (r.Ok? <==> Contains(body, feat) == Ok(false))
    ensures r.Ok? && !body.JObj? ==> r.value == JInt(0)
    ensures r.Raised? ==>
              (Contains(body, feat).Raised? && r.exc == Contains(body, feat).exc)
              || (Contains(body, feat) == Ok(true) && r == Index(body, feat))
  {
    match Contains(body, feat)
    case Raised(e) => Raised(e)
    case Ok(present) => if present then Index(body, feat) else Ok(JInt(0))
  }

  /**
   * The values collected for `feats`, in order; the first feature whose
   * lookup raises ends the collection with that exception.
   */
  function JsonValues(body: Json, feats: seq<string>): (r: Outcome<seq<Json>>)
    ensures r.Ok? ==> |r.value| == |feats|
    ensures r.Ok? ==> forall i :: 0 <= i < |feats| ==> JsonSlot(body, feats[i]) == Ok(r.value[i])
    ensures r.Ok? <==> forall i :: 0 <= i < |feats| ==> JsonSlot(body, feats[i]).Ok?
  {
    if feats == [] then Ok([])
    else
      var init := feats[..|feats| - 1];
      assert forall i :: 0 <= i < |init| ==> init[i] == feats[i];
      match JsonValues(body, init)
      case Raised(e) => Raised(e)
      case Ok(vals) =>
        match JsonSlot(body, feats[|feats| - 1])
        case Raised(e) => Raised(e)
        case Ok(v) => Ok(vals + [v])
  }

  /** Once collection has raised on a prefix, it raises the same on every extension. */
  lemma {:induction false} JsonValuesRaisedPropagates(body: Json, feats: seq<string>, k: nat)
    requires k <= |feats|
    requires JsonValues(body, feats[..k]).Raised?
    ensures JsonValues(body, feats) == JsonValues(body, feats[..k])
  {
    if k < |feats| {
      var init := feats[..|feats| - 1];
      assert init[..k] == feats[..k];
      JsonValuesRaisedPropagates(body, init, k);
    } else {
      assert feats[..k] == feats;
    }
  }

  /**
   * One step of the collection: extending the prefix by feature `i` either
   * appends that feature's value or, when its lookup raises, raises the same
   * for the whole list.
   */
  lemma JsonValuesStep(body: Json, feats: seq<string>, i: nat, vals: seq<Json>)
    requires i < |feats| && JsonValues(body, feats[..i]) == Ok(vals)
    ensures JsonSlot(body, feats[i]).Ok? ==>
              JsonValues(body, feats[..i + 1]) == Ok(vals + [JsonSlot(body, feats[i]).value])
    ensures JsonSlot(body, feats[i]).Raised? ==>
              JsonValues(body, feats) == Raised(JsonSlot(body, feats[i]).exc)
  {
    assert feats[..i + 1][..i] == feats[..i];
    if JsonSlot(body, feats[i]).Raised? {
      JsonValuesRaisedPropagates(body, feats, i + 1);
    }
  }

  /** numpy's `float` conversion of one collected value; `None` is refused (see README). */
  function ToFloat(v: Json): (r: Outcome<real>)
    ensures v.JInt? ==> r == Ok(v.i as real)
    ensures v.JFloat? ==> r == Ok(v.x)
    ensures v.JBool? ==> r == Ok(if v.b then 1.0 else 0.0)
    ensures v.JStr? ==> (r.Ok? <==> ParseFloat(v.s).Some?)
    ensures v.JStr? && r.Ok? ==> r.value == ParseFloat(v.s).value
    ensures (v.JNull? || v.JArr? || v.JObj?) ==> r == Raised(NotNumeric(v))
    ensures r.Raised? ==> r.exc == NotNumeric(v)
  {
    match v
    case JInt(i) => Ok(i as real)
    case JFloat(x) => Ok(x)
    case JBool(b) => Ok(if b then 1.0 else 0.0)
    case JStr(s) => (if ParseFloat(s).Some? then Ok(ParseFloat(s).value) else Raised(NotNumeric(v)))
    case _ => Raised(NotNumeric(v))
  }

  /** `np.array([vals], dtype=float)`: every value converted, or the first failure. */
  function NumericRow(vals: seq<Json>): (r: Outcome<seq<real>>)
    ensures r.Ok? ==> |r.value| == |vals|
    ensures r.Ok? ==> forall i :: 0 <= i < |vals| ==> ToFloat(vals[i]) == Ok(r.value[i])
    ensures r.Ok? <==> forall i :: 0 <= i < |vals| ==> ToFloat(vals[i]).Ok?
  {
    if vals == [] then Ok([])
    else
      match ToFloat(vals[0])
      case Raised(e) => Raised(e)
      case Ok(x) =>
        match NumericRow(vals[1..])
        case Raised(e) => Raised(e)
        case Ok(rest) => Ok([x] + rest)
  }

  /** What `build_feature_vector_from_json` returns or raises. */
  function JsonVector(body: Json): Outcome<seq<real>> {
    match JsonValues(body, FEATURES)
    case Raised(e) => Raised(e)
    case Ok(vals) => NumericRow(vals)
  }

  /** `build_feature_vector_from_json`. */
  method BuildFeatureVectorFromJson(body: Json) returns (r: Outcome<seq<real>>)
    ensures r == JsonVector(body)
  {
    var vals: seq<Json> := [];
    for i := 0 to |FEATURES|
      invariant JsonValues(body, FEATURES[..i]) == Ok(vals)
    {
      var feat := FEATURES[i];
      JsonValuesStep(body, FEATURES, i, vals);
      var present := Contains(body, feat);
      if present.Raised? {
        return Raised(present.exc);
      }
      if present.value {
        var v := Index(body, feat);
        if v.Raised? {
          return Raised(v.exc);
        }
        vals := vals + [v.value];
      } else {
        vals := vals + [JInt(0)];
      }
    }
    assert FEATURES[..|FEATURES|] == FEATURES;
    r := NumericRow(vals);
  }

  /** The number `build_feature_vector_from_form` puts in place of one field. */
  function FormSlot(form: map<string, string>, feat: string): real {
    if feat !in form || form[feat] == "" then 0.0
    else
      match ParseFloat(form[feat])
      case Some(x) => x
      case None => Fallback(form[feat])
  }

  /** `str(raw).strip().lower()`. */
  function Normalize(raw: string): string {
    Lower(Strip(raw))
  }

  /** The lexical table applied to a field that `float()` refuses. */
  function Fallback(raw: string): (x: real)
    ensures x == 0.0 || x == 1.0
  {
    var s := Normalize(raw);
    if s in {"male", "m", "1"} then 1.0
    else if s in {"female", "f", "0"} then 0.0
    else if s in {"yes", "y", "true", "1"} then 1.0
    else 0.0
  }

  /** The numbers `slot` gives the names `feats`, in order. */
  function Row(slot: string -> real, feats: seq<string>): (r: seq<real>)
    ensures |r| == |feats|
    ensures forall i :: 0 <= i < |feats| ==> r[i] == slot(feats[i])
  {
    if feats == [] then []
    else
      var init := feats[..|feats| - 1];
      assert forall i :: 0 <= i < |init| ==> init[i] == feats[i];
      Row(slot, init) + [slot(feats[|feats| - 1])]
  }

  lemma RowStep(slot: string -> real, feats: seq<string>, i: nat)
    requires i < |feats|
    ensures Row(slot, feats[..i + 1]) == Row(slot, feats[..i]) + [slot(feats[i])]
  {
    assert feats[..i + 1][..i] == feats[..i];
  }

  /** Each field of `form` as the form encoder reads it. */
  function FormSlots(form: map<string, string>): string -> real {
    feat => FormSlot(form, feat)
  }

  /** What `build_feature_vector_from_form` returns. */
  function FormVector(form: map<string, string>): seq<real> {
    Row(FormSlots(form), FEATURES)
  }

  /** `build_feature_vector_from_form`. */
  method BuildFeatureVectorFromForm(form: map<string, string>) returns (row: seq<real>)
    ensures row == FormVector(form)
  {
    var vals: seq<real> := [];
    for i := 0 to |FEATURES|
      invariant vals == Row(FormSlots(form), FEATURES[..i])
    {
      var feat := FEATURES[i];
      RowStep(FormSlots(form), FEATURES, i);
      ghost var before := vals;
      var raw: Option<string> := if feat in form then Some(form[feat]) else None;
      if raw == None || raw.value == "" {
        vals := vals + [0.0];
      } else {
        var parsed := ParseFloat(raw.value);
        if parsed.Some? {
          vals := vals + [parsed.value];
        } else {
          var s := Normalize(raw.value);
          if s in {"male", "m", "1"} {
            vals := vals + [1.0];
          } else if s in {"female", "f", "0"} {
            vals := vals + [0.0];
          } else if s in {"yes", "y", "true", "1"} {
            vals := vals + [1.0];
          } else {
            vals := vals + [0.0];
          }
        }
      }
      assert vals == before + [FormSlot(form, feat)];
    }
    assert FEATURES[..|FEATURES|] == FEATURES;
    row := vals;
  }
}
