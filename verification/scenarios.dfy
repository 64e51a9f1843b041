/** The concrete requests of `request/request_test.go`, stated against the
    model. */
module Scenarios {
  import opened Wrappers
  import opened Strings
  import opened StrConv
  import opened Coerce
  import opened Accessors

  /** `param1=value1,value2,value3`, `param1=value1` and
      `param1=value1&param1=value2&param1=value3` into a `[]string`. */
  lemma QuerySliceScenarios(parseFloat: FloatParser)
    ensures GetQueryParam(map["param1" := ["value1,value2,value3"]], "param1",
                          SliceK(StringK), false, parseFloat)
            == Stored(ListV(["value1", "value2", "value3"]))
    ensures GetQueryParam(map["param1" := ["value1"]], "param1",
                          SliceK(StringK), false, parseFloat)
            == Stored(ListV(["value1"]))
    ensures GetQueryParam(map["param1" := ["value1", "value2", "value3"]], "param1",
                          SliceK(StringK), false, parseFloat)
            == Stored(ListV(["value1", "value2", "value3"]))
  {
    var xs := ["value1", "value2", "value3"];
    ThreeValues();
    QuerySliceValues(map["param1" := xs], "param1", false, parseFloat);
    QueryRepeatedIsJoined(map["param1" := xs], map["param1" := ["value1,value2,value3"]],
                          "param1", SliceK(StringK), false, parseFloat);
    OneValue();
    QuerySliceValues(map["param1" := ["value1"]], "param1", false, parseFloat);
  }

  /** The three comma-free values of the repeated-key request and their join. */
  lemma ThreeValues()
    ensures SepFree(["value1", "value2", "value3"], ',')
    ensures Join(["value1", "value2", "value3"], ',') == "value1,value2,value3"
  {
    var xs := ["value1", "value2", "value3"];
    assert xs[1..] == ["value2", "value3"];
    assert xs[1..][1..] == ["value3"];
  }

  lemma OneValue()
    ensures SepFree(["value1"], ',')
  {
  }

  /** `param1=value1` into a string, `param1=42` into an int, `param1=true`
      into a bool, `param1=42.42` into a float64, and a request without
      `param1`, required and optional. */
  lemma QueryScalarScenarios(parseFloat: FloatParser)
    requires parseFloat("42.42") == Success(Finite(42.42))
    ensures GetQueryParam(map["param1" := ["value1"]], "param1", StringK, false, parseFloat)
            == Stored(StrV("value1"))
    ensures GetQueryParam(map["param1" := ["42"]], "param1", IntK, false, parseFloat)
            == Stored(IntV(42))
    ensures GetQueryParam(map["param1" := ["true"]], "param1", BoolK, false, parseFloat)
            == Stored(BoolV(true))
    ensures GetQueryParam(map["param1" := ["42.42"]], "param1", FloatK, false, parseFloat)
            == Stored(FloatV(42.42))
    ensures GetQueryParam(map[], "param1", StringK, false, parseFloat)
            == Refused(KeyNotFound("param1"))
    ensures GetQueryParam(map[], "param1", StringK, true, parseFloat) == Skipped
  {
    assert IsIntLiteral("42") && LiteralValue("42") == 42 by {
      assert Unsigned("42") == "42";
      assert "42"[..1] == "4" && "4"[..0] == "";
      assert DigitsValue("4") == 4;
    }
  }

  /** Boolean literals outside the twelve accepted spellings, including
      other capitalisations of accepted ones, are refused before anything is
      written. */
  lemma BoolScenarios(parseFloat: FloatParser)
    ensures Convert(BoolK, "yes", parseFloat) == Refused(Num(NumError("ParseBool", "yes", Syntax)))
    ensures Convert(BoolK, "tRuE", parseFloat) == Refused(Num(NumError("ParseBool", "tRuE", Syntax)))
    ensures Convert(BoolK, "True", parseFloat) == Stored(BoolV(true))
    ensures Convert(BoolK, "F", parseFloat) == Stored(BoolV(false))
  {
  }

  /** An array destination is not split: `case reflect.Array | reflect.Slice`
      matches slices only, so the array receives a JSON string and refuses
      it, while a slice of strings receives the pieces. */
  lemma ArrayScenario(parseFloat: FloatParser)
    ensures Convert(ArrayK, "a,b", parseFloat) == Refused(UnmarshalType(StringShape, ArrayK))
    ensures Convert(SliceK(StringK), "a,b", parseFloat) == Stored(ListV(["a", "b"]))
  {
    var xs := ["a", "b"];
    assert xs[1..] == ["b"];
    assert Join(xs, ',') == "a,b";
    assert SepFree(xs, ',');
    SplitJoin(xs, ',');
    assert Split("a,b", ',') == xs;
  }

  /** `ctx.SetParamNames("param1", "param2")` with values `value1`, `value2`,
      then names `param1` alone: `param2` is not found. */
  method PathScenarios(parseFloat: FloatParser)
    returns (first: Outcome, second: Outcome, missing: Outcome)
    ensures first == Stored(StrV("value1"))
    ensures second == Stored(StrV("value2"))
    ensures missing == Refused(PathKeyNotFound)
  {
    var names := ["param1", "param2"];
    var vals := ["value1", "value2"];
    assert names[..0] == [] && names[..1] == ["param1"];
    assert IsFirstMatch(names, "param1", 0);
    assert IsFirstMatch(names, "param2", 1);
    first := GetPathParams(names, vals, "param1", StringK, parseFloat);
    second := GetPathParams(names, vals, "param2", StringK, parseFloat);
    missing := GetPathParams(["param1"], ["value1"], "param2", StringK, parseFloat);
  }

  /** `Content-Type: application/json` read into a string, and a header the
      request does not carry, which leaves the destination as it was. */
  lemma HeaderScenarios(parseFloat: FloatParser)
    ensures GetHeaderParams(map["Content-Type" := ["application/json"]], "Content-Type",
                            StringK, false, parseFloat)
            == Stored(StrV("application/json"))
    ensures GetHeaderParams(map["Content-Type" := ["application/json"]], "Invalid-Key",
                            StringK, false, parseFloat).Untouched()
    ensures GetHeaderParams(map["Content-Type" := ["application/json"]], "Invalid-Key",
                            StringK, false, parseFloat) == Refused(KeyNotFound("Invalid-Key"))
  {
  }
}
