/**
 * What the two encoders promise: one entry per feature, in schema order,
 * each entry depending only on the input's value for that feature, with
 * the defaults and the string table of the form encoder.
 */
module EncoderProperties {
  import opened PyText
  import opened Encoder

  /** The schema has 38 names, "Sex" first and nowhere else. */
  lemma FeatureSchema()
    ensures |FEATURES| == 38
    ensures FEATURES[0] == "Sex"
    ensures forall i :: 1 <= i < |FEATURES| ==> FEATURES[i] != "Sex"
  {
  }

  /**
   * Python's falsy values among decoded JSON values: `None`, `False`, 0,
   * 0.0, the empty string, the empty list and the empty object; everything
   * else is truthy.
   */
  lemma FalsyValues(j: Json)
    ensures !Truthy(j) <==>
              j in {JNull, JBool(false), JInt(0), JFloat(0.0), JStr(""), JArr([]), JObj(map[])}
  {
  }

  /** The entry the JSON encoder collects for `feat` from a JSON object. */
  function ObjectEntry(m: map<string, Json>, feat: string): Json {
    if feat in m then m[feat] else JInt(0)
  }

  /**
   * For a JSON object, collection never raises, and entry `i` is the value
   * under the `i`-th name, or 0 when that key is absent.
   */
  lemma ObjectValues(m: map<string, Json>, feats: seq<string>)
    ensures JsonValues(JObj(m), feats).Ok?
    ensures |JsonValues(JObj(m), feats).value| == |feats|
    ensures forall i :: 0 <= i < |feats| ==>
              JsonValues(JObj(m), feats).value[i] == ObjectEntry(m, feats[i])
  {
    forall i | 0 <= i < |feats| ensures JsonSlot(JObj(m), feats[i]).Ok? {
    }
  }

  /** `ObjectValues` for the schema. */
  lemma JsonObjectValues(m: map<string, Json>)
    ensures JsonValues(JObj(m), FEATURES).Ok?
    ensures |JsonValues(JObj(m), FEATURES).value| == |FEATURES|
    ensures forall i :: 0 <= i < |FEATURES| ==>
              JsonValues(JObj(m), FEATURES).value[i] == ObjectEntry(m, FEATURES[i])
  {
    ObjectValues(m, FEATURES);
  }

  /**
   * The JSON encoder on an object: it succeeds exactly when every value
   * present under a feature name is numeric, and then entry `i` is the
   * number under `FEATURES[i]`, or 0 when that key is absent.
   */
  lemma JsonObjectVector(m: map<string, Json>)
    ensures JsonVector(JObj(m)).Ok? <==>
              forall i :: 0 <= i < |FEATURES| && FEATURES[i] in m ==> ToFloat(m[FEATURES[i]]).Ok?
    ensures JsonVector(JObj(m)).Ok? ==>
              var row := JsonVector(JObj(m)).value;
              && |row| == |FEATURES|
              && forall i :: 0 <= i < |FEATURES| ==>
                   row[i] == if FEATURES[i] in m then ToFloat(m[FEATURES[i]]).value else 0.0
  {
    JsonObjectValues(m);
    var vals := JsonValues(JObj(m), FEATURES).value;
    assert forall i :: 0 <= i < |FEATURES| ==> vals[i] == ObjectEntry(m, FEATURES[i]);
  }

  /** Whatever the body, a row the JSON encoder returns has one entry per feature. */
  lemma JsonVectorLength(body: Json)
    ensures JsonVector(body).Ok? ==> |JsonVector(body).value| == |FEATURES|
  {
  }

  /**
   * Keys that are not feature names never matter: two objects that agree on
   * every feature name (present in both with the same value, or absent from
   * both) encode to the same row, or raise the same exception.
   */
  lemma JsonIgnoresOtherKeys(m1: map<string, Json>, m2: map<string, Json>)
    requires forall i :: 0 <= i < |FEATURES| ==> (FEATURES[i] in m1 <==> FEATURES[i] in m2)
    requires forall i :: 0 <= i < |FEATURES| && FEATURES[i] in m1 ==> m1[FEATURES[i]] == m2[FEATURES[i]]
    ensures JsonVector(JObj(m1)) == JsonVector(JObj(m2))
  {
    JsonObjectValues(m1);
    JsonObjectValues(m2);
    var v1 := JsonValues(JObj(m1), FEATURES).value;
    var v2 := JsonValues(JObj(m2), FEATURES).value;
    assert forall i :: 0 <= i < |FEATURES| ==> ObjectEntry(m1, FEATURES[i]) == ObjectEntry(m2, FEATURES[i]);
    assert v1 == v2;
  }

  /** A truthy number or `true` as the whole body raises at the first `in` test. */
  lemma ScalarBodyRaises(body: Json)
    requires body.JInt? || body.JFloat? || body.JBool?
    ensures JsonVector(body) == Raised(NotIterable(TypeName(body)))
  {
    assert FEATURES[..1] == [FEATURES[0]];
    assert JsonValues(body, FEATURES[..1]) == Raised(NotIterable(TypeName(body)));
    JsonValuesRaisedPropagates(body, FEATURES, 1);
  }

  /**
   * A list as the whole body: if some element is a feature name, indexing
   * the list by it raises; otherwise every feature is "absent" and the row is
   * all zeros.
   */
  lemma ListBody(items: seq<Json>)
    ensures (exists i :: 0 <= i < |FEATURES| && JStr(FEATURES[i]) in items) ==>
              JsonVector(JArr(items)) == Raised(NotIndexable("list"))
    ensures (forall i :: 0 <= i < |FEATURES| ==> JStr(FEATURES[i]) !in items) ==>
              JsonVector(JArr(items)) == Ok(seq(|FEATURES|, _ => 0.0))
  {
    var body := JArr(items);
    if exists i :: 0 <= i < |FEATURES| && JStr(FEATURES[i]) in items {
      var k :| 0 <= k < |FEATURES| && JStr(FEATURES[k]) in items
               && forall j :: 0 <= j < k ==> JStr(FEATURES[j]) !in items by {
        FirstListed(items, FEATURES);
      }
      FirstRaise(body, k, NotIndexable("list"));
    } else {
      var vals := JsonValues(body, FEATURES).value;
      assert forall i :: 0 <= i < |FEATURES| ==> vals[i] == JInt(0) by {
        forall i | 0 <= i < |FEATURES| ensures vals[i] == JInt(0) {
          assert JsonSlot(body, FEATURES[i]) == Ok(JInt(0));
        }
      }
      var row := NumericRow(vals).value;
      assert forall i :: 0 <= i < |FEATURES| ==> row[i] == 0.0 by {
        forall i | 0 <= i < |FEATURES| ensures row[i] == 0.0 {
          assert ToFloat(vals[i]) == Ok(row[i]);
        }
      }
      assert row == seq(|FEATURES|, _ => 0.0);
    }
  }

  /**
   * A truthy string body is searched with `in`: if some feature name occurs
   * in it, indexing the string raises; otherwise every entry is 0.
   */
  lemma StrBody(s: string)
    ensures (exists i :: 0 <= i < |FEATURES| && IsSubstring(FEATURES[i], s)) ==>
              JsonVector(JStr(s)) == Raised(NotIndexable("str"))
    ensures (forall i :: 0 <= i < |FEATURES| ==> !IsSubstring(FEATURES[i], s)) ==>
              JsonVector(JStr(s)) == Ok(seq(|FEATURES|, _ => 0.0))
  {
    var body := JStr(s);
    if exists i :: 0 <= i < |FEATURES| && IsSubstring(FEATURES[i], s) {
      var k :| 0 <= k < |FEATURES| && IsSubstring(FEATURES[k], s)
               && forall j :: 0 <= j < k ==> !IsSubstring(FEATURES[j], s) by {
        FirstFound(s, FEATURES);
      }
      FirstRaise(body, k, NotIndexable("str"));
    } else {
      var vals := JsonValues(body, FEATURES).value;
      assert forall i :: 0 <= i < |FEATURES| ==> vals[i] == JInt(0) by {
        forall i | 0 <= i < |FEATURES| ensures vals[i] == JInt(0) {
          assert JsonSlot(body, FEATURES[i]) == Ok(JInt(0));
        }
      }
      var row := NumericRow(vals).value;
      assert forall i :: 0 <= i < |FEATURES| ==> row[i] == 0.0 by {
        forall i | 0 <= i < |FEATURES| ensures row[i] == 0.0 {
          assert ToFloat(vals[i]) == Ok(row[i]);
        }
      }
      assert row == seq(|FEATURES|, _ => 0.0);
    }
  }

  /** Some name of `feats` that occurs in `s` occurs first. */
  lemma FirstFound(s: string, feats: seq<string>)
    requires exists i :: 0 <= i < |feats| && IsSubstring(feats[i], s)
    ensures exists k :: 0 <= k < |feats| && IsSubstring(feats[k], s)
              && forall j :: 0 <= j < k ==> !IsSubstring(feats[j], s)
  {
    var i :| 0 <= i < |feats| && IsSubstring(feats[i], s);
    var k := 0;
    while !IsSubstring(feats[k], s)
      invariant 0 <= k <= i
      invariant forall j :: 0 <= j < k ==> !IsSubstring(feats[j], s)
      decreases i - k
    {
      k := k + 1;
    }
  }

  /** Some name of `feats` that occurs in `items` occurs first. */
  lemma FirstListed(items: seq<Json>, feats: seq<string>)
    requires exists i :: 0 <= i < |feats| && JStr(feats[i]) in items
    ensures exists k :: 0 <= k < |feats| && JStr(feats[k]) in items
              && forall j :: 0 <= j < k ==> JStr(feats[j]) !in items
  {
    var i :| 0 <= i < |feats| && JStr(feats[i]) in items;
    var k := 0;
    while JStr(feats[k]) !in items
      invariant 0 <= k <= i
      invariant forall j :: 0 <= j < k ==> JStr(feats[j]) !in items
      decreases i - k
    {
      k := k + 1;
    }
  }

  /**
   * If the lookups of the first `k` names succeed and the lookup of name
   * `k` raises `e`, collection raises `e`.
   */
  lemma FirstRaiseIn(body: Json, feats: seq<string>, k: nat, e: Exception)
    requires k < |feats|
    requires forall j :: 0 <= j < k ==> JsonSlot(body, feats[j]).Ok?
    requires JsonSlot(body, feats[k]) == Raised(e)
    ensures JsonValues(body, feats) == Raised(e)
  {
    var pre := feats[..k];
    assert forall j :: 0 <= j < |pre| ==> JsonSlot(body, pre[j]).Ok?;
    assert feats[..k + 1][..k] == pre;
    assert feats[..k + 1][k] == feats[k];
    assert JsonValues(body, feats[..k + 1]) == Raised(e);
    JsonValuesRaisedPropagates(body, feats, k + 1);
  }

  /**
   * If the lookups of the first `k` features succeed and the lookup of
   * feature `k` raises `e`, the JSON encoder raises `e`.
   */
  lemma FirstRaise(body: Json, k: nat, e: Exception)
    requires k < |FEATURES|
    requires forall j :: 0 <= j < k ==> JsonSlot(body, FEATURES[j]).Ok?
    requires JsonSlot(body, FEATURES[k]) == Raised(e)
    ensures JsonVector(body) == Raised(e)
  {
    FirstRaiseIn(body, FEATURES, k, e);
  }

  // ---------------------------------------------------------------- form

  /** An absent field and an empty field both give 0. */
  lemma FormMissingIsZero(form: map<string, string>, feat: string)
    requires feat !in form || form[feat] == ""
    ensures FormSlot(form, feat) == 0.0
  {
  }

  /** A field `float()` accepts gives exactly the parsed number, never a table entry. */
  lemma FormParsedIsExact(form: map<string, string>, feat: string, x: real)
    requires feat in form && ParseFloat(form[feat]) == Some(x)
    ensures FormSlot(form, feat) == x
  {
    assert form[feat] != "" by { assert Strip("") == ""; }
  }

  /** A field `float()` refuses gives 0 or 1, as the lexical table says. */
  lemma FormFallbackIsBinary(form: map<string, string>, feat: string)
    requires feat in form && form[feat] != "" && ParseFloat(form[feat]).None?
    ensures FormSlot(form, feat) == Fallback(form[feat])
    ensures FormSlot(form, feat) == 0.0 || FormSlot(form, feat) == 1.0
  {
  }

  /** The table as written: 1 for the male and yes spellings, 0 for everything else. */
  lemma FallbackTable(raw: string)
    ensures Fallback(raw) == 1.0 <==> Normalize(raw) in {"male", "m", "1", "yes", "y", "true"}
    ensures Fallback(raw) == 0.0 <==> Normalize(raw) !in {"male", "m", "1", "yes", "y", "true"}
  {
  }

  /** Lower-casing never turns a letter into a digit or a numeral symbol. */
  lemma LowerKeepsNonNumerals(c: char)
    ensures IsNumeral(LowerChar(c)) ==> IsNumeral(c)
    ensures IsNumeral(c) ==> IsNumeral(LowerChar(c))
    ensures IsDigit(LowerChar(c)) <==> IsDigit(c)
  {
  }

  /**
   * Every field whose normalised form is "1" or "0" parses as a number, so
   * the "1" and "0" entries of the lexical table are never consulted.
   */
  lemma DigitEntriesUnreachable(raw: string)
    requires Normalize(raw) == "1" || Normalize(raw) == "0"
    ensures ParseFloat(raw) == Some(if Normalize(raw) == "1" then 1.0 else 0.0)
  {
    var t := Strip(raw);
    assert |t| == 1 && Lower(t)[0] == LowerChar(t[0]);
    LowerKeepsNonNumerals(t[0]);
    assert t == [Normalize(raw)[0]];
    ParseDigits(raw);
    assert DigitsValue(t) == t[0] as int - '0' as int by { assert t[..0] == []; }
  }

  /**
   * No word of the lexical table parses as a number, so every field whose
   * normalised form is one of them reaches the table.
   */
  lemma TableWordsReachFallback(raw: string)
    requires Normalize(raw) in {"male", "m", "female", "f", "yes", "y", "true"}
    ensures ParseFloat(raw).None?
  {
    var t := Strip(raw);
    assert Normalize(raw)[0] == LowerChar(t[0]);
    LowerKeepsNonNumerals(t[0]);
    assert !IsNumeral(t[0]);
  }

  /**
   * The table as it behaves: a field spelled (in any case, with any
   * surrounding whitespace) male, m, yes, y, true or 1 gives 1, and one
   * spelled female, f or 0 gives 0; "1" and "0" get there through the
   * numeric path.
   */
  lemma FormSpellings(form: map<string, string>, feat: string)
    requires feat in form
    ensures Normalize(form[feat]) in {"male", "m", "yes", "y", "true", "1"} ==> FormSlot(form, feat) == 1.0
    ensures Normalize(form[feat]) in {"female", "f", "0"} ==> FormSlot(form, feat) == 0.0
  {
    var raw := form[feat];
    if raw == "" {
      assert Normalize(raw) == "";
    } else if Normalize(raw) == "1" || Normalize(raw) == "0" {
      DigitEntriesUnreachable(raw);
    } else if Normalize(raw) in {"male", "m", "female", "f", "yes", "y", "true"} {
      TableWordsReachFallback(raw);
    }
  }

  /** Fields that are not feature names never matter to the form encoder. */
  lemma FormIgnoresOtherKeys(f1: map<string, string>, f2: map<string, string>)
    requires forall i :: 0 <= i < |FEATURES| ==> (FEATURES[i] in f1 <==> FEATURES[i] in f2)
    requires forall i :: 0 <= i < |FEATURES| && FEATURES[i] in f1 ==> f1[FEATURES[i]] == f2[FEATURES[i]]
    ensures FormVector(f1) == FormVector(f2)
  {
    assert forall i :: 0 <= i < |FEATURES| ==> FormSlot(f1, FEATURES[i]) == FormSlot(f2, FEATURES[i]);
  }

  /** The form encoder's row has one entry per feature, whatever fields are sent. */
  lemma FormVectorShape(form: map<string, string>)
    ensures |FormVector(form)| == |FEATURES|
    ensures forall i :: 0 <= i < |FEATURES| ==> FormVector(form)[i] == FormSlot(form, FEATURES[i])
  {
  }

  // ------------------------------------------------------------- examples

  /** `{"Sex": "Male"}` gives 1 in the Sex position and 0 everywhere else. */
  lemma ExampleSexMale()
    ensures FormVector(map["Sex" := "Male"]) == [1.0] + seq(|FEATURES| - 1, _ => 0.0)
  {
    var form := map["Sex" := "Male"];
    StripUnpadded("Male");
    assert Lower("Male") == "male";
    FormSpellings(form, "Sex");
    assert FEATURES[0] == "Sex";
    var row := FormVector(form);
    var expected := [1.0] + seq(|FEATURES| - 1, _ => 0.0);
    forall i | 0 <= i < |FEATURES| ensures row[i] == expected[i] {
      if i > 0 {
        FeatureSchema();
        assert FEATURES[i] != "Sex";
      }
    }
    assert row == expected;
  }

  /** A Fever field of `"1.0"` gives 1 in the Fever position through the numeric path. */
  lemma ExampleFeverOnePointZero(form: map<string, string>)
    requires "Fever" in form && form["Fever"] == "1.0"
    ensures FEATURES[9] == "Fever" && FormVector(form)[9] == 1.0
  {
    OnePointZero(form["Fever"]);
    FormParsedIsExact(form, "Fever", 1.0);
    assert FEATURES[9] == "Fever";
    assert FormVector(form)[9] == FormSlots(form)(FEATURES[9]);
  }

  /**
   * `float("1.0")` is 1. The string is a parameter fixed by the requires:
   * with the literal written into the ensures, the verifier evaluates the
   * parser on it in every proof that uses the lemma, which is too slow.
   */
  lemma OnePointZero(s: string)
    requires s == "1.0"
    ensures ParseFloat(s) == Some(1.0)
  {
    var w, f := s[..1], s[2..];
    assert w == "1" && f == "0";
    assert s == w + "." + f;
    OneDigitValue(w);
    OneDigitValue(f);
    assert DecimalValue(w, f) == 1.0;
    ParseDecimal(w, f);
  }

  /** A single digit has the value it spells, with one decimal place. */
  lemma OneDigitValue(d: string)
    requires |d| == 1 && AllDigits(d)
    ensures DigitsValue(d) == d[0] as int - '0' as int && Pow10(|d|) == 10
  {
    assert d[..0] == [];
  }

  /** An empty Cough field gives 0 in the Cough position. */
  lemma ExampleCoughEmpty(form: map<string, string>)
    requires "Cough" in form && form["Cough"] == ""
    ensures FEATURES[5] == "Cough" && FormVector(form)[5] == 0.0
  {
    assert FEATURES[5] == "Cough";
    assert FormVector(form)[5] == FormSlots(form)(FEATURES[5]);
  }
}
