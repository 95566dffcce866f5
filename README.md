# QueryExpressionBuilder, modelled in Dafny

QueryExpressionBuilder turns a query-string dictionary into a LINQ predicate over a
target ("DB") type, in two stages. They are driven by a filter-schema type ("query
object") whose properties carry operator attributes.

1. **Materializer** (`GetQueryObject`). It creates a filter-schema instance with every
   property at its default. Then, in declaration order, it overwrites each property
   whose exact name is a dictionary key with the converted raw value.
   - A string property gets `null` for a null or empty raw value.
   - Any other property goes through `Convert.ChangeType`, which for `int` is
     `Int32.Parse`.
2. **Compiler** (`GetPredicate`). It visits each target property `p` and each
   annotated filter property `y` whose name contains `p`'s name. For each pair it builds
   at most one condition:
   - `StartsWith` or `Contains` on `p`;
   - `>=`, `<=` or `==` on the property the attribute names.

   A null filter value yields no condition. The conditions are joined with
   `Aggregate(Expression.AndAlso)`.

`GetPredicateFromDictionary` and the extension method `ToPredicate` run both stages.

## Modules

- `wrappers.dfy`, module `Wrappers`: `Option`, `Result`, and two fold-like combinators
  for sequences of results. `Collect` gathers one value per step. `Concat` appends a
  sequence per step. Both stop at the first error, which is how an exception ends a C#
  loop.
- `values.dfy`, module `Values`: property types (`string`, `int`, `Nullable<int>`) and
  boxed values. It also holds the exceptions, `Int32.Parse`, `Int32.ToString` and
  `Convert.ChangeType`.
- `attributes.dfy`, module `Attributes`: the five operator attributes with their
  `PropertyName`, and the precedence in which the compiler tests for them.
- `schema.dfy`, module `Schema`: target and filter properties, `Expression.Property`
  lookup, ordinal `string.Contains`, and records.
- `materializer.dfy`, module `Materializer`: `GetQueryObject` as a loop over an array,
  proved against the specification function `Materialize`.
- `predicates.dfy`, module `Predicates`: the compiled lambda as conditions joined by
  `AndAlso`, and what the compiled delegate returns on a record.
- `compiler.dfy`, module `Compiler`: `GetPredicate` as two nested loops, proved against
  the specification function `Compile`. It also holds the two entry points, proved
  against `Pipeline`.
- `scenarios.dfy`, module `Scenarios`: one product catalogue worked through the whole
  pipeline.

Every exception is an `Err` value of type `Error`. The exceptions are:
- `FormatException` and `OverflowException` from `Int32.Parse`;
- `InvalidCastException` from `Convert.ChangeType`;
- `ArgumentException` from `Expression.Property` and `Expression.Constant`;
- `InvalidOperationException` from `Expression.Call` when the property's type has no
  such method, from `Expression.GreaterThanOrEqual` and its siblings, and from
  `Aggregate` on an empty sequence.

Where the intended design and the code differ, the model follows the code:

- With no condition at all, `GetPredicate` does not return a match-all predicate or a
  dedicated error. `Aggregate` throws on the empty list (`NoElements`).
- A non-nullable `int` filter property with no key keeps its default 0. It still yields
  a condition against 0 (`MissingKeyUsesDefault`).
- A comparison converts the filter value to the type of the paired target property
  `p`, not to the type of the property the attribute names. Only the property the
  attribute names is compared.
- Only the first attribute in the order StartWith, Contains, GreaterOrEqual,
  LessOrEqual, Equals is acted on.
- Although the comparison attributes are meant for numbers, none of them can be used
  with a nullable target property (`int?`). The filter value is converted to that
  property's type, `Nullable<int>`, and `Convert.ChangeType` throws
  `InvalidCastException` for it (`NullableTargetComparisonFails`). The "intended"
  pairings of `IntendedPair` therefore leave nullable target properties out.

## Model

| member | source | states |
|---|---|---|
| Materializer.GetQueryObject | QueryExpressionBuilder/ExpressionBuilder.cs:49-75 | The array-filling loop returns exactly `Materialize`: every property starts at its default, each keyed property is overwritten in declaration order, and the first conversion error ends the loop. |
| Materializer.MaterializeSpec | QueryExpressionBuilder/ExpressionBuilder.cs:52-72 | An instance exists exactly when every property's value converts. It then holds, at each position, what that property is assigned. Otherwise the error is that of the first property, in declaration order, that fails. |
| Materializer.Materialize | QueryExpressionBuilder/ExpressionBuilder.cs:52-74 | A materialized instance has one value per filter property. |
| Materializer.StringPropertyNullIffEmpty | QueryExpressionBuilder/ExpressionBuilder.cs:59-64 | A `string` property (C#'s `string?` is the same runtime type) never fails to convert. It holds `null` exactly when the raw value is null or empty, and the raw text otherwise. |
| Materializer.IntPropertyParses | QueryExpressionBuilder/ExpressionBuilder.cs:59-68 | An `int` or `int?` property converts exactly when the raw value is non-null and `Int32.Parse` accepts it, and then holds the parsed number. An empty raw value is a `FormatException`. |
| Materializer.AssignedTyped | QueryExpressionBuilder/ExpressionBuilder.cs:52-70 | A property without a key keeps its type's default. Whatever a property is assigned has the property's type and is never the empty string. |
| Materializer.ForeignKeyIgnored | QueryExpressionBuilder/ExpressionBuilder.cs:54-56 | Adding or changing a dictionary key that names no filter property leaves the instance, or the error, unchanged. |
| Values.ParseInt | QueryExpressionBuilder/ExpressionBuilder.cs:67 | A parsed number is a 32-bit integer. A failed parse is a format or overflow error. |
| Values.TrimNuls | QueryExpressionBuilder/ExpressionBuilder.cs:67 | The result is the input without its maximal trailing run of `'\0'` characters, which `Int32.Parse` skips after the trailing white space. |
| Values.ParseIgnoresTrailingNul | QueryExpressionBuilder/ExpressionBuilder.cs:67 | Appending a `'\0'` never changes what `Int32.Parse` returns. |
| Values.ParseFormatInt | QueryExpressionBuilder/ExpressionBuilder.cs:67 | Parsing what `Int32.ToString()` prints gives back the number, for every 32-bit integer. |
| Values.ParseIgnoresLeadingWhite | QueryExpressionBuilder/ExpressionBuilder.cs:67 | Leading white space never changes what `Int32.Parse` returns. |
| Values.NatDigitsValue | QueryExpressionBuilder/ExpressionBuilder.cs:67 | The decimal digits printed for `n` denote `n`. |
| Values.Unpadded | QueryExpressionBuilder/ExpressionBuilder.cs:67 | Trimming leaves a string alone when it neither starts nor ends with white space, nor ends with `'\0'`. |
| Values.TrimStart | QueryExpressionBuilder/ExpressionBuilder.cs:67 | The result is the suffix of the input after its leading white-space run, and it does not start with white space. |
| Values.TrimEnd | QueryExpressionBuilder/ExpressionBuilder.cs:67 | The result is the prefix of the input before its trailing white-space run, and it does not end with white space. |
| Values.ChangeType | QueryExpressionBuilder/ExpressionBuilder.cs:67-68 | A result has the requested type. A `Nullable` target is an invalid cast. `null` converts only to a reference type. A value that already has the (non-nullable) target type comes back unchanged. |
| Values.ChangeTypeRoundTrip | QueryExpressionBuilder/ExpressionBuilder.cs:128 | An `int` converted to a string converts back to the same `int`. |
| Values.Default | QueryExpressionBuilder/ExpressionBuilder.cs:52 | For a filter class without initializers or constructor logic, `Activator.CreateInstance` leaves each property at a value of its type. That value is `null` for every type except `int`, whose default is 0. |
| Attributes.AttachSpec | QueryExpressionBuilder/Attributes.cs:3-99 | When each attribute kind is applied to a property at most once, the property's attributes form a map holding exactly the attached kinds. Each kind maps to the `PropertyName` its constructor stored. |
| Attributes.Chosen | QueryExpressionBuilder/ExpressionBuilder.cs:99-159 | No kind is chosen exactly when the property carries no attribute. Otherwise the chosen kind is carried, and no carried kind comes before it in the compiler's test order. |
| Attributes.ChosenIsUnique | QueryExpressionBuilder/ExpressionBuilder.cs:99-159 | A carried kind that no carried kind precedes is the one the compiler acts on. |
| Attributes.ChosenFirstInPrecedence | QueryExpressionBuilder/ExpressionBuilder.cs:99-159 | The kind acted on is the first entry of the test order that the property carries. No entry before it is carried. With no kind chosen, no entry is carried. |
| Attributes.PrecedenceEnumeratesKinds | QueryExpressionBuilder/Attributes.cs:6-78 | The test order lists each of the five attributes once: the two `String` attributes first, then the three `Numbers` ones. |
| Attributes.NoKindMeansEmpty | QueryExpressionBuilder/ExpressionBuilder.cs:89-91 | A property carrying none of the five attributes carries no attribute at all. |
| Schema.Find | QueryExpressionBuilder/ExpressionBuilder.cs:123-124 | The lookup returns the position of a property with that name, and fails exactly when no property has it. |
| Schema.IsSubstringAt | QueryExpressionBuilder/ExpressionBuilder.cs:96 | `Contains` holds exactly when the name occurs at some position. |
| Schema.FirstCharAbsent | QueryExpressionBuilder/ExpressionBuilder.cs:96 | A name cannot be contained in a string that lacks its first character. |
| Compiler.GetPredicate | QueryExpressionBuilder/ExpressionBuilder.cs:83-166 | The nested loops return exactly `Compile`. The conditions are collected in target-property order, then pair order, and the first exception aborts. The collected list is aggregated with `AndAlso`. |
| Compiler.Paired | QueryExpressionBuilder/ExpressionBuilder.cs:89-96 | Every filter property listed for `p` is annotated and its name contains `p`'s name. |
| Compiler.PairedSpec | QueryExpressionBuilder/ExpressionBuilder.cs:89-96 | Every annotated filter property whose name contains `p`'s name is listed, once, in declaration order. |
| Compiler.PairConditionSpec | QueryExpressionBuilder/ExpressionBuilder.cs:99-159 | A null value gives no condition and any other value exactly one, of the chosen attribute's kind. String attributes test `p` itself against the value. Comparison attributes test the named property against the value converted to `p`'s type. A name that is not a property fails. A string attribute on a non-string `p` fails. |
| Compiler.Present | QueryExpressionBuilder/ExpressionBuilder.cs:104-126 | Exactly the indices of `ys` whose filter value is not null are listed, and a strictly increasing `ys` gives a strictly increasing list, so each non-null paired property gets one condition (source lines 105, 116 and 126), in pair order. |
| Compiler.PairStepsYield | QueryExpressionBuilder/ExpressionBuilder.cs:97-159 | One target property contributes exactly one condition per paired filter property whose value is not null, in pair order, and each is that pair's condition. |
| Compiler.ConditionsInOrder | QueryExpressionBuilder/ExpressionBuilder.cs:94-97 | Compilation succeeds only when every target property's pairs do. The conditions of earlier target properties come before those of later ones. |
| Compiler.CompiledAcceptsIff | QueryExpressionBuilder/ExpressionBuilder.cs:163-164 | A compiled predicate comes from a non-empty condition list. It accepts a record exactly when every condition holds of it. |
| Compiler.AllNullFails | QueryExpressionBuilder/ExpressionBuilder.cs:104-163 | With every filter value null there is no condition: the collected list is empty unless a misconfigured pair failed first, and then `Aggregate` throws `NoElements`. Compilation always fails. |
| Compiler.PairErrorAborts | QueryExpressionBuilder/ExpressionBuilder.cs:99-159 | An exception while building any pair's condition makes the whole compilation fail. |
| Compiler.MisconfiguredPairFails | QueryExpressionBuilder/ExpressionBuilder.cs:99-159 | An attribute naming no target property, or a string attribute on a non-string target property, makes compilation fail whatever the values. |
| Compiler.IntendedPairCompiles | QueryExpressionBuilder/ExpressionBuilder.cs:99-159 | For a pairing the attributes are meant for, a filter value of the property's type always yields its condition. Such pairings exclude nullable target properties, where the code throws (`NullableTargetComparisonFails`). |
| Compiler.NullableTargetComparisonFails | QueryExpressionBuilder/ExpressionBuilder.cs:121-159 | A comparison attribute paired with a nullable target property throws `InvalidCastException` as soon as its filter value is not null, and the whole compilation fails. |
| Compiler.ComparisonNeverFaults | QueryExpressionBuilder/ExpressionBuilder.cs:121-159 | A comparison condition the compiler built never faults on a well-typed record of the target type. |
| Compiler.IntendedSchemaCompiles | QueryExpressionBuilder/ExpressionBuilder.cs:83-166 | If every pairing is intended and the instance is well typed, no condition fails to build. Compilation then fails only when there is no condition. |
| Compiler.WellTypedIsBoxed | QueryExpressionBuilder/ExpressionBuilder.cs:104-128 | A well-typed filter instance holds only 32-bit integers. |
| Compiler.MaterializedIsBoxed | QueryExpressionBuilder/ExpressionBuilder.cs:39-40 | What the materializer builds is a well-typed instance, ready for the compiler. |
| Compiler.GetPredicateFromDictionary | QueryExpressionBuilder/ExpressionBuilder.cs:37-41 | The method returns `Pipeline`: the first materialization error, or else what the compiler returns on the instance. |
| Compiler.ToPredicate | QueryExpressionBuilder/ExpressionBuilder.cs:25-28 | The extension method returns what `GetPredicateFromDictionary` returns. |
| Compiler.PipelineErrorsAndForeignKeys | QueryExpressionBuilder/ExpressionBuilder.cs:37-56 | A conversion error is reported before anything is compiled. Dictionary keys that name no filter property make no difference to the result. |
| Compiler.MissingKeyUsesDefault | QueryExpressionBuilder/ExpressionBuilder.cs:52-132 | A filter property without a key keeps its default. A string or nullable property then adds no condition, while an `int` property adds one against 0. |
| Predicates.Aggregate | QueryExpressionBuilder/ExpressionBuilder.cs:163 | It throws exactly on an empty list. Otherwise the `AndAlso` chain accepts, rejects or faults on each record exactly as the conditions checked in order do. |
| Predicates.FoldMeansAll | QueryExpressionBuilder/ExpressionBuilder.cs:163 | The left-nested `AndAlso` chain means what the list of conditions means. |
| Predicates.EvalAllSnoc | QueryExpressionBuilder/ExpressionBuilder.cs:163 | Checking one more condition at the end evaluates it only when all earlier conditions held. |
| Predicates.EvalAllHolds | QueryExpressionBuilder/ExpressionBuilder.cs:163-164 | A list of conditions accepts a record exactly when every condition holds of it. |
| Predicates.BoundsInclusive | QueryExpressionBuilder/ExpressionBuilder.cs:130-143 | `>=` and `<=` accept a value equal to the bound and reject one step past it. |
| Predicates.EqualToAcceptsExactly | QueryExpressionBuilder/ExpressionBuilder.cs:156 | Equality accepts the operand and rejects every other value. |
| Predicates.StringTestOnNullThrows | QueryExpressionBuilder/ExpressionBuilder.cs:103-114 | `StartsWith` and `Contains` on a record property holding `null` fault when the predicate runs. |
| Scenarios.PrefixAndMinimumPrice | QueryExpressionBuilder/ExpressionBuilder.cs:37-166 | `NameStartsWith=Wid&MinPrice=10` compiles to `Name.StartsWith("Wid") && Price >= 10`. |
| Scenarios.WidgetsFromTenSelects | QueryExpressionBuilder/ExpressionBuilder.cs:163-164 | That predicate accepts a Widget at 12 and rejects a Gadget at 12 and a Widget at 5. |
| Scenarios.WidgetsFromTenMaterialized | QueryExpressionBuilder/ExpressionBuilder.cs:49-75 | That dictionary materializes to `"Wid"` and `10`. |
| Scenarios.WidgetsFromTenCompiled | QueryExpressionBuilder/ExpressionBuilder.cs:83-166 | That instance compiles to the two-condition predicate. |
| Scenarios.TrailingNulAccepted | QueryExpressionBuilder/ExpressionBuilder.cs:67 | `MinPrice=10%00`, which arrives as `"10\0"`, parses as 10. |
| Scenarios.ProductFilterAttached | QueryExpressionBuilder/Attributes.cs:13-52 | The catalogue filter's attribute maps are those that `[StartWith("Name")]` and `[GreaterOrEqual("Price")]` attach. |
| Scenarios.UnparsableNumberFails | QueryExpressionBuilder/ExpressionBuilder.cs:37-67 | `MinPrice=abc` fails with a format error before anything is compiled. |
| Scenarios.EmptyDictionaryFails | QueryExpressionBuilder/ExpressionBuilder.cs:37-163 | An empty dictionary leaves both filter values null, gives no condition, and `Aggregate` throws. |
| Scenarios.NullQueryNoConditions | QueryExpressionBuilder/ExpressionBuilder.cs:104-126 | With both filter values null, neither pair yields a condition. |

## Left out

- Values.Default: the model assumes filter-schema classes have no property initializers
  and no constructor logic. `Activator.CreateInstance<T>()` runs the parameterless
  constructor and any initializers, so a class with them starts from other values. The
  model then does not capture those values, nor the `int` default that
  `MissingKeyUsesDefault` relies on.
- Reflection and expression trees are not modelled as such. Types are lists of
  properties, a filter-schema instance is a list of boxed values, and the compiled
  lambda is the datatype `Expr` with an in-memory meaning, `Eval`. Translation of the
  predicate by a database provider is not modelled.
- Property types other than `string`, `int` and `int?` (bool, decimal, double,
  DateTime and the other integer widths) are not modelled. Neither are the
  conversions `Convert.ChangeType` performs for them.
- `Int32.Parse` is modelled with the invariant culture: ASCII digits, an optional
  `+`/`-`, white space U+0009–U+000D and U+0020, and a trailing run of `'\0'`
  characters, which the parser skips. `Convert.ChangeType(object, Type)` at
  `GetQueryObject` and in the comparisons parses and prints with the current culture,
  not the invariant one. A culture whose negative or positive sign differs from `-`
  and `+` is not modelled.
- `StartsWith` and `Contains` in the predicate are ordinal prefix and substring tests.
  The culture-sensitive comparison `string.StartsWith(string)` performs is not
  modelled.
- `Expression.Property` looks up a property name ignoring case. The model looks it up
  exactly.
- The `propertyY` locals of the StartWith and Contains branches are unused, so they
  are not modelled. They look up the same property as `propertyP` and cannot fail
  differently.
- The nullable annotation on the return type is not modelled: the code never returns
  `null`.
- The HTTP layer that fills the dictionary and the database that runs the predicate
  are not part of this model.
