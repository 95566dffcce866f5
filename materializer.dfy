/**
 * The schema materializer, `GetQueryObject`: creates a filter-schema instance with
 * every property at its default, then, in declaration order, overwrites each property
 * whose exact name is a key of the dictionary with the converted raw value.
 */
module Materializer {
  import opened Wrappers
  import opened Values
  import opened Schema

  /** The query-string dictionary. A C# dictionary value may be `null`: `None` here. */
  type RawMap = map<string, Option<string>>

  /** The raw dictionary value, boxed. */
  function RawValue(raw: Option<string>): Value {
    if raw.Some? then StrV(raw.value) else Null
  }

  /**
   * The value stored into a property of type `t` whose name is a key with value `raw`.
   * A string property (after unwrapping `Nullable`) gets `null` for a null or empty raw
   * value and the raw text otherwise; any other property gets the raw text converted to
   * the unwrapped type, which fails for null, for `""` and for anything that is not a
   * 32-bit integer.
   */
  function ConvertRaw(t: PropType, raw: Option<string>): Result<Value, Error>
    requires WellFormedType(t)
  {
    var propertyType := Underlying(t);
    if propertyType == Str && (raw == None || raw == Some("")) then Ok(Null)
    else ChangeType(RawValue(raw), propertyType)
  }

  /**
   * A string property is never left holding `""`: a null or empty raw value becomes
   * `null`, any other raw value is stored as it is, and the conversion cannot fail.
   */
  lemma StringPropertyNullIffEmpty(t: PropType, raw: Option<string>)
    requires WellFormedType(t) && Underlying(t) == Str
    ensures ConvertRaw(t, raw).Ok?
    ensures ConvertRaw(t, raw).value == Null <==> raw == None || raw == Some("")
    ensures raw.Some? && raw.value != "" ==> ConvertRaw(t, raw).value == StrV(raw.value)
  {
  }

  /**
   * An `int` or `int?` property stores the parsed integer; null, `""` and any text
   * `Int32.Parse` rejects make the conversion fail.
   */
  lemma IntPropertyParses(t: PropType, raw: Option<string>)
    requires WellFormedType(t) && Underlying(t) == Int
    ensures ConvertRaw(t, raw).Ok? <==> raw.Some? && ParseInt(raw.value).Ok?
    ensures ConvertRaw(t, raw).Ok? ==> ConvertRaw(t, raw).value == IntV(ParseInt(raw.value).value)
    ensures raw == Some("") ==> ConvertRaw(t, raw) == Err(FormatError)
  {
    if raw.Some? {
      assert ConvertRaw(t, raw) == ChangeType(StrV(raw.value), Int);
      if raw.value == "" {
        assert TrimEnd(TrimNuls(TrimStart(""))) == "";
      }
    } else {
      assert ConvertRaw(t, raw) == ChangeType(Null, Int);
    }
  }

  /** What property `f` holds once the dictionary has been applied. */
  function Assigned(f: FilterProp, params: RawMap): Result<Value, Error>
    requires WellFormedType(f.ty)
  {
    if f.name in params then ConvertRaw(f.ty, params[f.name]) else Ok(Default(f.ty))
  }

  /**
   * A property whose name is not a key keeps its default; whatever a property is
   * assigned has the property's type, and a string property never holds `""`.
   */
  lemma AssignedTyped(f: FilterProp, params: RawMap)
    requires WellFormedType(f.ty)
    ensures f.name !in params ==> Assigned(f, params) == Ok(Default(f.ty))
    ensures Assigned(f, params).Ok? ==> HasType(Assigned(f, params).value, f.ty) && Assigned(f, params).value != StrV("")
  {
  }

  /** Property `i` is the first, in declaration order, whose raw value cannot be converted. */
  predicate FirstFailure(schema: seq<FilterProp>, params: RawMap, i: int)
    requires WellFormedSchema(schema)
  {
    && 0 <= i < |schema|
    && Assigned(schema[i], params).Err?
    && forall k | 0 <= k < i :: Assigned(schema[k], params).Ok?
  }

  /** What each property, in declaration order, is assigned. */
  function Outcomes(schema: seq<FilterProp>, params: RawMap): seq<Result<Value, Error>>
    requires WellFormedSchema(schema)
  {
    seq(|schema|, i requires 0 <= i < |schema| => Assigned(schema[i], params))
  }

  /**
   * The filter-schema instance the dictionary denotes, one value per property in
   * declaration order, or the first conversion error.
   */
  function Materialize(schema: seq<FilterProp>, params: RawMap): (r: Result<seq<Value>, Error>)
    requires WellFormedSchema(schema)
    ensures r.Ok? ==> |r.value| == |schema|
  {
    CollectOk(Outcomes(schema, params));
    Collect(Outcomes(schema, params))
  }

  /**
   * The instance exists exactly when every property's value converts, and then holds
   * what each property is assigned; otherwise the error is that of the first property,
   * in declaration order, whose value does not convert.
   */
  lemma MaterializeSpec(schema: seq<FilterProp>, params: RawMap)
    requires WellFormedSchema(schema)
    ensures var r := Materialize(schema, params);
      r.Ok? <==> forall i | 0 <= i < |schema| :: Assigned(schema[i], params).Ok?
    ensures var r := Materialize(schema, params);
      r.Ok? ==> |r.value| == |schema| && forall i | 0 <= i < |schema| :: Assigned(schema[i], params) == Ok(r.value[i])
    ensures var r := Materialize(schema, params);
      r.Err? ==> exists i :: FirstFailure(schema, params, i) && r == Err(Assigned(schema[i], params).error)
  {
    var outcomes := Outcomes(schema, params);
    assert forall i | 0 <= i < |schema| :: outcomes[i] == Assigned(schema[i], params);
    CollectOk(outcomes);
    if Collect(outcomes).Err? {
      var i := FirstErr(outcomes);
      CollectOk(outcomes[..i]);
      assert forall k | 0 <= k < i :: outcomes[..i][k] == outcomes[k];
      CollectFirstErr(outcomes, i);
      assert FirstFailure(schema, params, i);
    }
  }

  /** `GetQueryObject<T>(queryParams)`. */
  method GetQueryObject(schema: seq<FilterProp>, params: RawMap) returns (r: Result<seq<Value>, Error>)
    requires WellFormedSchema(schema)
    ensures r == Materialize(schema, params)
  {
    ghost var outcomes := Outcomes(schema, params);
    var queryObject := new Value[|schema|](k requires 0 <= k < |schema| => Default(schema[k].ty));
    for i := 0 to |schema|
      invariant Collect(outcomes[..i]) == Ok(queryObject[..i])
      invariant forall k | i <= k < |schema| :: queryObject[k] == Default(schema[k].ty)
    {
      CollectStep(outcomes, i);
      var property := schema[i];
      if property.name in params {
        var value := ConvertRaw(property.ty, params[property.name]);
        assert outcomes[i] == value;
        if value.Err? {
          CollectFirstErr(outcomes, i);
          return Err(value.error);
        }
        queryObject[i] := value.value;
      } else {
        assert outcomes[i] == Ok(Default(property.ty));
      }
      assert queryObject[..i + 1] == queryObject[..i] + [queryObject[i]];
    }
    assert outcomes[..|schema|] == outcomes;
    assert queryObject[..|schema|] == queryObject[..];
    r := Ok(queryObject[..]);
  }

  /** Dictionary keys that name no property of the schema make no difference. */
  lemma ForeignKeyIgnored(schema: seq<FilterProp>, params: RawMap, key: string, raw: Option<string>)
    requires WellFormedSchema(schema)
    requires forall i | 0 <= i < |schema| :: schema[i].name != key
    ensures Materialize(schema, params[key := raw]) == Materialize(schema, params)
  {
    assert Outcomes(schema, params[key := raw]) == Outcomes(schema, params);
  }
}
