/**
 * A product catalogue filtered by name prefix and minimum price, worked through
 * the whole pipeline: dictionary, filter instance, conditions, predicate.
 */
module Scenarios {
  import opened Wrappers
  import opened Values
  import opened Attributes
  import opened Schema
  import opened Predicates
  import opened Materializer
  import opened Compiler

  /** The target type: `string Name` and `int Price`. */
  const Products: seq<Prop> := [Prop("Name", Str), Prop("Price", Int)]

  /** The filter schema: `[StartWith("Name")] string NameStartsWith` and `[GreaterOrEqual("Price")] int? MinPrice`. */
  const ProductFilter: seq<FilterProp> := [
    FilterProp("NameStartsWith", Str, map[StartWith := "Name"]),
    FilterProp("MinPrice", Nullable(Int), map[GreaterOrEqual := "Price"])
  ]

  function Product(name: string, price: int): Record {
    map["Name" := StrV(name), "Price" := IntV(price)]
  }

  /** `ProductFilter`'s attribute maps are what its two attributes attach. */
  lemma ProductFilterAttached()
    ensures ProductFilter[0].attrs == Attach([PredicateAttribute(StartWith, "Name")])
    ensures ProductFilter[1].attrs == Attach([PredicateAttribute(GreaterOrEqual, "Price")])
  {
    assert [PredicateAttribute(StartWith, "Name")][..0] == [];
    assert [PredicateAttribute(GreaterOrEqual, "Price")][..0] == [];
  }

  /** The dictionary `NameStartsWith=Wid&MinPrice=10`. */
  const WidgetsFromTen: RawMap := map["NameStartsWith" := Some("Wid"), "MinPrice" := Some("10")]

  /** The predicate that dictionary denotes: `Name.StartsWith("Wid") && Price >= 10`. */
  const WidgetsFromTenPredicate: Expr := AndAlso(Atom(StartsWith("Name", "Wid")), Atom(AtLeast("Price", 10)))

  lemma ParseTen()
    ensures ParseInt("10") == Ok(10)
  {
    assert FormatInt(10) == "10";
    ParseFormatInt(10);
  }

  /** `MinPrice=10%00` arrives as `"10\0"`, which `Int32.Parse` reads as 10. */
  lemma TrailingNulAccepted()
    ensures ParseInt("10\0") == Ok(10)
  {
    assert "10\0" == "10" + ['\0'];
    ParseIgnoresTrailingNul("10");
    ParseTen();
  }

  lemma NameStartsWithAssigned()
    ensures Assigned(ProductFilter[0], WidgetsFromTen) == Ok(StrV("Wid"))
  {
  }

  lemma ConvertTen()
    ensures ConvertRaw(Nullable(Int), Some("10")) == Ok(IntV(10))
  {
    ParseTen();
    IntPropertyParses(Nullable(Int), Some("10"));
  }

  lemma MinPriceAssigned()
    ensures Assigned(ProductFilter[1], WidgetsFromTen) == Ok(IntV(10))
  {
    assert WidgetsFromTen["MinPrice"] == Some("10");
    ConvertTen();
  }

  /** A two-property filter schema whose properties are both assigned materializes to those two values. */
  lemma MaterializeTwo(schema: seq<FilterProp>, params: RawMap, a: Value, b: Value)
    requires WellFormedSchema(schema) && |schema| == 2
    requires Assigned(schema[0], params) == Ok(a) && Assigned(schema[1], params) == Ok(b)
    ensures Materialize(schema, params) == Ok([a, b])
  {
    var outcomes := Outcomes(schema, params);
    CollectAll(outcomes, [a, b]);
  }

  /** The filter instance holds `"Wid"` and `10`. */
  lemma WidgetsFromTenMaterialized()
    ensures Materialize(ProductFilter, WidgetsFromTen) == Ok([StrV("Wid"), IntV(10)])
  {
    NameStartsWithAssigned();
    MinPriceAssigned();
    MaterializeTwo(ProductFilter, WidgetsFromTen, StrV("Wid"), IntV(10));
  }

  /** `"Price"` is a substring of `"MinPrice"`. */
  lemma PriceInMinPrice()
    ensures IsSubstring("Price", "MinPrice")
  {
    var s := "MinPrice";
    assert s[3..] == "Price";
    assert IsSubstring("Price", s[3..]);
    assert s[3..] == s[2..][1..];
    assert IsSubstring("Price", s[2..]);
    assert s[2..] == s[1..][1..];
    assert IsSubstring("Price", s[1..]);
  }

  /** `NameStartsWith` pairs with `Name` and `MinPrice` does not. */
  lemma NamePaired()
    ensures Paired(ProductFilter, Products[0]) == [0]
  {
    assert Pairs(ProductFilter[0], Products[0]) by {
      assert StartWith in ProductFilter[0].attrs;
    }
    assert !Pairs(ProductFilter[1], Products[0]) by {
      FirstCharAbsent("Name", "MinPrice");
    }
    assert ProductFilter[..1][..0] == [];
  }

  /** `MinPrice` pairs with `Price` and `NameStartsWith` does not. */
  lemma PricePaired()
    ensures Paired(ProductFilter, Products[1]) == [1]
  {
    assert !Pairs(ProductFilter[0], Products[1]) by {
      FirstCharAbsent("Price", "NameStartsWith");
    }
    assert Pairs(ProductFilter[1], Products[1]) by {
      assert GreaterOrEqual in ProductFilter[1].attrs;
      PriceInMinPrice();
    }
    assert ProductFilter[..1][..0] == [];
  }

  /** `NameStartsWith = "Wid"` gives `Name.StartsWith("Wid")`. */
  lemma NameCondition()
    ensures StartWith in ProductFilter[0].attrs
    ensures PairCondition(Products, Products[0], ProductFilter[0], StrV("Wid")) == Ok(Some(StartsWith("Name", "Wid")))
  {
  }

  /** `MinPrice = 10` gives `Price >= 10`. */
  lemma PriceCondition()
    ensures GreaterOrEqual in ProductFilter[1].attrs
    ensures PairCondition(Products, Products[1], ProductFilter[1], IntV(10)) == Ok(Some(AtLeast("Price", 10)))
  {
    assert Chosen(ProductFilter[1].attrs) == Some(GreaterOrEqual);
    assert Find(Products, "Price") == Some(1) by {
      assert Products[0].name[0] != "Price"[0];
    }
  }

  /** A target property paired with a single filter property contributes that pair's condition, if any. */
  lemma OnlyPair(db: seq<Prop>, schema: seq<FilterProp>, query: seq<Value>, i: nat, y: nat, c: Option<Cond>)
    requires |query| == |schema| && Boxed(query) && i < |db| && y < |schema| && Annotated(schema[y])
    requires Paired(schema, db[i]) == [y]
    requires PairCondition(db, db[i], schema[y], query[y]) == Ok(c)
    ensures TargetConditions(db, schema, query, i) == Ok(if c.Some? then [c.value] else [])
  {
    var steps := PairSteps(db, schema, query, db[i], [y]);
    assert steps[..0] == [] && steps[..1] == steps;
    ConcatStep(steps, 0);
    assert [] + steps[0].value == steps[0].value;
  }

  /** `Name` contributes `Name.StartsWith("Wid")`. */
  lemma NameTarget()
    ensures TargetConditions(Products, ProductFilter, [StrV("Wid"), IntV(10)], 0) == Ok([StartsWith("Name", "Wid")])
  {
    NamePaired();
    NameCondition();
    OnlyPair(Products, ProductFilter, [StrV("Wid"), IntV(10)], 0, 0, Some(StartsWith("Name", "Wid")));
  }

  /** `Price` contributes `Price >= 10`. */
  lemma PriceTarget()
    ensures TargetConditions(Products, ProductFilter, [StrV("Wid"), IntV(10)], 1) == Ok([AtLeast("Price", 10)])
  {
    PricePaired();
    PriceCondition();
    OnlyPair(Products, ProductFilter, [StrV("Wid"), IntV(10)], 1, 1, Some(AtLeast("Price", 10)));
  }

  /** The filter instance compiles to the expected predicate. */
  lemma WidgetsFromTenCompiled()
    ensures Compile(Products, ProductFilter, [StrV("Wid"), IntV(10)]) == Ok(WidgetsFromTenPredicate)
  {
    var query := [StrV("Wid"), IntV(10)];
    var targets := TargetSteps(Products, ProductFilter, query);
    assert targets[0] == Ok([StartsWith("Name", "Wid")]) by {
      NameTarget();
    }
    assert targets[1] == Ok([AtLeast("Price", 10)]) by {
      PriceTarget();
    }
    var cs := [StartsWith("Name", "Wid"), AtLeast("Price", 10)];
    assert Concat(targets) == Ok(cs) by {
      assert targets[..0] == [] && targets[..2] == targets;
      ConcatStep(targets, 0);
      assert [] + targets[0].value == targets[0].value;
      ConcatStep(targets, 1);
      assert targets[0].value + targets[1].value == cs;
    }
    assert Aggregate(cs) == Ok(Fold(cs));
    assert cs[..1] == [cs[0]];
  }

  /** Once the dictionary materializes to `query`, the pipeline is the compilation of `query`. */
  lemma PipelineOf(db: seq<Prop>, schema: seq<FilterProp>, params: RawMap, query: seq<Value>)
    requires WellFormedSchema(schema) && Materialize(schema, params) == Ok(query)
    ensures |query| == |schema| && Boxed(query)
    ensures Pipeline(db, schema, params) == Compile(db, schema, query)
  {
    MaterializedIsBoxed(schema, params);
  }

  /** `NameStartsWith=Wid&MinPrice=10` compiles to `Name.StartsWith("Wid") && Price >= 10`. */
  lemma PrefixAndMinimumPrice()
    ensures Pipeline(Products, ProductFilter, WidgetsFromTen) == Ok(WidgetsFromTenPredicate)
  {
    WidgetsFromTenMaterialized();
    WidgetsFromTenCompiled();
    PipelineOf(Products, ProductFilter, WidgetsFromTen, [StrV("Wid"), IntV(10)]);
  }

  /** That predicate accepts a Widget at 12 and rejects a Gadget at 12 and a Widget at 5. */
  lemma WidgetsFromTenSelects()
    ensures Eval(WidgetsFromTenPredicate, Product("Widget", 12)) == Some(true)
    ensures Eval(WidgetsFromTenPredicate, Product("Gadget", 12)) == Some(false)
    ensures Eval(WidgetsFromTenPredicate, Product("Widget", 5)) == Some(false)
  {
    assert "Wid" <= "Widget";
    assert "Gadget"[0] != "Wid"[0];
  }

  /** The dictionary `MinPrice=abc`. */
  const BadPrice: RawMap := map["MinPrice" := Some("abc")]

  lemma AbcRejected()
    ensures ParseInt("abc") == Err(FormatError)
  {
    assert TrimStart("abc") == "abc";
    assert TrimNuls("abc") == "abc";
    assert TrimEnd("abc") == "abc";
    assert !IsDigit("abc"[0]);
  }

  lemma BadPriceAssigned()
    ensures Assigned(ProductFilter[0], BadPrice) == Ok(Null)
    ensures Assigned(ProductFilter[1], BadPrice) == Err(FormatError)
  {
    assert "NameStartsWith" !in BadPrice;
    assert BadPrice["MinPrice"] == Some("abc");
    assert ConvertRaw(Nullable(Int), Some("abc")) == ChangeType(StrV("abc"), Int);
    AbcRejected();
  }

  /** `MinPrice=abc` fails while the filter instance is built: nothing is compiled. */
  lemma UnparsableNumberFails()
    ensures Pipeline(Products, ProductFilter, BadPrice) == Err(FormatError)
  {
    var outcomes := Outcomes(ProductFilter, BadPrice);
    assert outcomes[0] == Ok(Null) && outcomes[1] == Err(FormatError) by {
      BadPriceAssigned();
    }
    assert Collect(outcomes[..1]) == Ok([Null]) by {
      CollectAll(outcomes[..1], [Null]);
    }
    CollectFirstErr(outcomes, 1);
  }

  /** An empty dictionary leaves both filter values null. */
  lemma EmptyDictionaryMaterialized()
    ensures Materialize(ProductFilter, map[]) == Ok([Null, Null])
  {
    MaterializeTwo(ProductFilter, map[], Null, Null);
  }

  /** A null filter value yields no condition, on either pair. */
  lemma NullConditions()
    ensures StartWith in ProductFilter[0].attrs && GreaterOrEqual in ProductFilter[1].attrs
    ensures PairCondition(Products, Products[0], ProductFilter[0], Null) == Ok(None)
    ensures PairCondition(Products, Products[1], ProductFilter[1], Null) == Ok(None)
  {
    assert Chosen(ProductFilter[1].attrs) == Some(GreaterOrEqual);
    assert Find(Products, "Price") == Some(1) by {
      assert Products[0].name[0] != "Price"[0];
    }
  }

  /** With both filter values null, `Name` contributes nothing. */
  lemma NullNameTarget()
    ensures TargetConditions(Products, ProductFilter, [Null, Null], 0) == Ok([])
  {
    NamePaired();
    NullConditions();
    OnlyPair(Products, ProductFilter, [Null, Null], 0, 0, None);
  }

  /** With both filter values null, `Price` contributes nothing. */
  lemma NullPriceTarget()
    ensures TargetConditions(Products, ProductFilter, [Null, Null], 1) == Ok([])
  {
    PricePaired();
    NullConditions();
    OnlyPair(Products, ProductFilter, [Null, Null], 1, 1, None);
  }

  /** With both filter values null neither pair yields a condition. */
  lemma NullQueryNoConditions()
    ensures Conditions(Products, ProductFilter, [Null, Null]) == Ok([])
  {
    var targets := TargetSteps(Products, ProductFilter, [Null, Null]);
    assert targets[0] == Ok([]) by {
      NullNameTarget();
    }
    assert targets[1] == Ok([]) by {
      NullPriceTarget();
    }
    assert targets[..0] == [] && targets[..2] == targets;
    ConcatStep(targets, 0);
    ConcatStep(targets, 1);
  }

  /** An empty dictionary gives no condition, and `Aggregate` throws. */
  lemma EmptyDictionaryFails()
    ensures Pipeline(Products, ProductFilter, map[]) == Err(NoElements)
  {
    EmptyDictionaryMaterialized();
    NullQueryNoConditions();
    PipelineOf(Products, ProductFilter, map[], [Null, Null]);
  }
}
