/**
 * The predicate compiler, `GetPredicate`: pairs each target property with the
 * annotated filter properties whose names contain its name, builds at most one
 * condition per pair, and joins the conditions with `AndAlso`. Also the two entry
 * points that run the materializer first.
 */
module Compiler {
  import opened Wrappers
  import opened Values
  import opened Attributes
  import opened Schema
  import opened Predicates
  import opened Materializer

  /** Every `int` in the filter instance is a 32-bit value, as the property types guarantee. */
  predicate Boxed(query: seq<Value>) {
    forall i | 0 <= i < |query| :: query[i].IntV? ==> InInt32(query[i].i)
  }

  /** Filter property `y` is paired with target property `p`: `y` is annotated and `y.Name.Contains(p.Name)`. */
  predicate Pairs(y: FilterProp, p: Prop) {
    Annotated(y) && IsSubstring(p.name, y.name)
  }

  /**
   * The filter properties paired with `p`, as indices into `schema` in declaration
   * order (`T_pr_props.Where(x => x.Name.Contains(p.Name))`).
   */
  function Paired(schema: seq<FilterProp>, p: Prop): (ys: seq<nat>)
    ensures forall j | 0 <= j < |ys| :: ys[j] < |schema| && Pairs(schema[ys[j]], p)
  {
    if schema == [] then []
    else
      var last := |schema| - 1;
      var earlier := Paired(schema[..last], p);
      if Pairs(schema[last], p) then earlier + [last] else earlier
  }

  /** `Paired` lists every filter property that pairs with `p`, each once, in declaration order. */
  lemma {:induction false} PairedSpec(schema: seq<FilterProp>, p: Prop)
    ensures forall i | 0 <= i < |schema| && Pairs(schema[i], p) :: i in Paired(schema, p)
    ensures forall j, k | 0 <= j < k < |Paired(schema, p)| :: Paired(schema, p)[j] < Paired(schema, p)[k]
  {
    if schema != [] {
      PairedSpec(schema[..|schema| - 1], p);
    }
  }

  /** `Expression.GreaterThanOrEqual`, `LessThanOrEqual` or `Equal` is defined on operands of type `t`. */
  predicate OperatorDefined(k: OpKind, t: PropType) {
    k == Equals || Underlying(t) == Int
  }

  /**
   * StartWith and Contains: the string constant is built from the filter value first,
   * then the method is looked up on `p`'s type; the null test comes last.
   */
  function StringCall(p: Prop, v: Value, k: OpKind): Result<Option<Cond>, Error>
    requires k == StartWith || k == Contains
  {
    if v != Null && !v.StrV? then Err(ConstantTypeMismatch)
    else if p.ty != Str then Err(MethodNotDefined(if k == StartWith then "StartsWith" else "Contains"))
    else if v == Null then Ok(None)
    else if k == StartWith then Ok(Some(StartsWith(p.name, v.s)))
    else Ok(Some(ContainsText(p.name, v.s)))
  }

  /**
   * GreaterOrEqual, LessOrEqual and Equals: the property called `name` is looked up
   * first; after the null test the value is converted to `p`'s type, and the operator
   * needs both operand types to agree.
   */
  function Comparison(db: seq<Prop>, p: Prop, name: string, v: Value, k: OpKind): Result<Option<Cond>, Error>
    requires k == GreaterOrEqual || k == LessOrEqual || k == Equals
    requires v.IntV? ==> InInt32(v.i)
  {
    var q := Find(db, name);
    if q.None? then Err(PropertyNotDefined(name))
    else if v == Null then Ok(None)
    else
      var c :- ChangeType(v, p.ty);
      if db[q.value].ty != p.ty || !OperatorDefined(k, p.ty) then Err(OperatorNotDefined)
      else if k == GreaterOrEqual then Ok(Some(AtLeast(name, c.i)))
      else if k == LessOrEqual then Ok(Some(AtMost(name, c.i)))
      else Ok(Some(EqualTo(name, c)))
  }

  /** The kind of a condition. */
  function KindOf(c: Cond): OpKind {
    match c
    case StartsWith(_, _) => StartWith
    case ContainsText(_, _) => Contains
    case AtLeast(_, _) => GreaterOrEqual
    case AtMost(_, _) => LessOrEqual
    case EqualTo(_, _) => Equals
  }

  /** The value a condition compares its property against. */
  function Operand(c: Cond): Value {
    match c
    case StartsWith(_, s) => StrV(s)
    case ContainsText(_, s) => StrV(s)
    case AtLeast(_, b) => IntV(b)
    case AtMost(_, b) => IntV(b)
    case EqualTo(_, w) => w
  }

  /** The condition, if any, for the pair (`p`, `y`) when `y` holds `v`. */
  function PairCondition(db: seq<Prop>, p: Prop, y: FilterProp, v: Value): Result<Option<Cond>, Error>
    requires Annotated(y)
    requires v.IntV? ==> InInt32(v.i)
  {
    var k := Chosen(y.attrs).value;
    match k
    case StartWith => StringCall(p, v, k)
    case Contains => StringCall(p, v, k)
    case GreaterOrEqual => Comparison(db, p, y.attrs[k], v, k)
    case LessOrEqual => Comparison(db, p, y.attrs[k], v, k)
    case Equals => Comparison(db, p, y.attrs[k], v, k)
  }

  /**
   * Only the attribute of highest precedence counts. A null value gives no condition
   * and any other value exactly one, of that attribute's kind. StartWith and Contains
   * test `p` itself against the value; the other three test the property the attribute
   * names against the value converted to `p`'s type. A name that is not a property, and
   * a string operator on a property that is not a string, fail even when `v` is null.
   */
  lemma PairConditionSpec(db: seq<Prop>, p: Prop, y: FilterProp, v: Value)
    requires Annotated(y)
    requires v.IntV? ==> InInt32(v.i)
    ensures var r := PairCondition(db, p, y, v);
      && (r.Ok? ==> (r.value.Some? <==> v != Null))
      && (r.Ok? && r.value.Some? ==> KindOf(r.value.value) == Chosen(y.attrs).value)
    ensures var r := PairCondition(db, p, y, v); var k := Chosen(y.attrs).value;
      r.Ok? && r.value.Some? && Group(k) == Strings ==>
        r.value.value.field == p.name && Operand(r.value.value) == v
    ensures var r := PairCondition(db, p, y, v); var k := Chosen(y.attrs).value;
      r.Ok? && r.value.Some? && Group(k) == Numbers ==>
        r.value.value.field == y.attrs[k] && ChangeType(v, p.ty) == Ok(Operand(r.value.value))
    ensures var k := Chosen(y.attrs).value;
      Group(k) == Numbers && Find(db, y.attrs[k]).None? ==>
        PairCondition(db, p, y, v) == Err(PropertyNotDefined(y.attrs[k]))
    ensures Group(Chosen(y.attrs).value) == Strings && p.ty != Str ==> PairCondition(db, p, y, v).Err?
  {
  }

  /**
   * The indices of `ys` whose filter value is not null, in order: every listed index
   * is one of `ys` with a non-null value, every such index is listed, and a strictly
   * increasing `ys` gives a strictly increasing list.
   */
  function Present(query: seq<Value>, ys: seq<nat>): (zs: seq<nat>)
    requires forall j | 0 <= j < |ys| :: ys[j] < |query|
    ensures forall k | 0 <= k < |zs| :: zs[k] in ys && query[zs[k]] != Null
    ensures forall j | 0 <= j < |ys| && query[ys[j]] != Null :: ys[j] in zs
    ensures (forall a, b | 0 <= a < b < |ys| :: ys[a] < ys[b]) ==>
      forall a, b | 0 <= a < b < |zs| :: zs[a] < zs[b]
  {
    if ys == [] then []
    else
      var earlier := Present(query, ys[..|ys| - 1]);
      var y := ys[|ys| - 1];
      if query[y] != Null then earlier + [y] else earlier
  }

  /** The query and the pairing indices fit the schema. */
  predicate PairingFits(schema: seq<FilterProp>, query: seq<Value>, ys: seq<nat>) {
    && |query| == |schema|
    && Boxed(query)
    && forall j | 0 <= j < |ys| :: ys[j] < |schema| && Annotated(schema[ys[j]])
  }

  /** One pass of the inner loop: the pair's condition as a list of none or one. */
  function PairStep(db: seq<Prop>, schema: seq<FilterProp>, query: seq<Value>, p: Prop, y: nat): Result<seq<Cond>, Error>
    requires y < |schema| == |query| && Boxed(query) && Annotated(schema[y])
  {
    var c :- PairCondition(db, p, schema[y], query[y]);
    if c.Some? then Ok([c.value]) else Ok([])
  }

  /** The inner loop for target property `p`: one step per paired filter property `ys`. */
  function PairSteps(db: seq<Prop>, schema: seq<FilterProp>, query: seq<Value>, p: Prop, ys: seq<nat>): seq<Result<seq<Cond>, Error>>
    requires PairingFits(schema, query, ys)
  {
    seq(|ys|, j requires 0 <= j < |ys| => PairStep(db, schema, query, p, ys[j]))
  }

  /** The conditions target property `db[i]` contributes, or the first error among its pairs. */
  function TargetConditions(db: seq<Prop>, schema: seq<FilterProp>, query: seq<Value>, i: nat): Result<seq<Cond>, Error>
    requires i < |db| && |query| == |schema| && Boxed(query)
  {
    Concat(PairSteps(db, schema, query, db[i], Paired(schema, db[i])))
  }

  /** The outer loop: one step per target property, in declaration order. */
  function TargetSteps(db: seq<Prop>, schema: seq<FilterProp>, query: seq<Value>): seq<Result<seq<Cond>, Error>>
    requires |query| == |schema| && Boxed(query)
  {
    seq(|db|, i requires 0 <= i < |db| => TargetConditions(db, schema, query, i))
  }

  /** All conditions, in target-property order and then pair order, or the first error. */
  function Conditions(db: seq<Prop>, schema: seq<FilterProp>, query: seq<Value>): Result<seq<Cond>, Error>
    requires |query| == |schema| && Boxed(query)
  {
    Concat(TargetSteps(db, schema, query))
  }

  /** What `GetPredicate` returns: the `AndAlso` chain of all conditions, or the first error. */
  function Compile(db: seq<Prop>, schema: seq<FilterProp>, query: seq<Value>): Result<Expr, Error>
    requires |query| == |schema| && Boxed(query)
  {
    var cs :- Conditions(db, schema, query);
    Aggregate(cs)
  }

  /** `GetPredicate<TDB, TQE>(query)`. */
  method GetPredicate(db: seq<Prop>, schema: seq<FilterProp>, query: seq<Value>) returns (r: Result<Expr, Error>)
    requires |query| == |schema| && Boxed(query)
    ensures r == Compile(db, schema, query)
  {
    ghost var targets := TargetSteps(db, schema, query);
    var conditions: seq<Cond> := [];
    var i := 0;
    while i < |db|
      invariant i <= |db|
      invariant Concat(targets[..i]) == Ok(conditions)
    {
      var p := db[i];
      var matches := Paired(schema, p);
      ghost var steps := PairSteps(db, schema, query, p, matches);
      ghost var before := conditions;
      var j := 0;
      while j < |matches|
        invariant j <= |matches|
        invariant Concat(steps[..j]).Ok?
        invariant conditions == before + Concat(steps[..j]).value
      {
        var y := matches[j];
        ConcatStep(steps, j);
        var condition := PairCondition(db, p, schema[y], query[y]);
        if condition.Err? {
          ConcatErrPersists(steps, j + 1);
          ConcatStep(targets, i);
          ConcatErrPersists(targets, i + 1);
          return Err(condition.error);
        }
        if condition.value.Some? {
          conditions := conditions + [condition.value.value];
        }
        j := j + 1;
      }
      assert steps[..j] == steps;
      ConcatStep(targets, i);
      i := i + 1;
    }
    assert targets[..i] == targets;
    r := Aggregate(conditions);
  }

  /**
   * The pairs of one target property contribute one condition for each paired filter
   * property whose value is not null, in pair order, and no other.
   */
  lemma {:induction false} PairStepsYield(db: seq<Prop>, schema: seq<FilterProp>, query: seq<Value>, p: Prop, ys: seq<nat>)
    requires PairingFits(schema, query, ys)
    requires Concat(PairSteps(db, schema, query, p, ys)).Ok?
    ensures var cs := Concat(PairSteps(db, schema, query, p, ys)).value; var zs := Present(query, ys);
      && |cs| == |zs|
      && forall k | 0 <= k < |zs| :: PairCondition(db, p, schema[zs[k]], query[zs[k]]) == Ok(Some(cs[k]))
  {
    if ys != [] {
      var init := ys[..|ys| - 1];
      var y := ys[|ys| - 1];
      var steps := PairSteps(db, schema, query, p, ys);
      assert steps[..|ys| - 1] == PairSteps(db, schema, query, p, init);
      PairStepsYield(db, schema, query, p, init);
      PairConditionSpec(db, p, schema[y], query[y]);
    }
  }

  /**
   * Compilation succeeds only when every target property's pairs do, and then the
   * conditions of the first `m` target properties come first.
   */
  lemma ConditionsInOrder(db: seq<Prop>, schema: seq<FilterProp>, query: seq<Value>, m: nat)
    requires |query| == |schema| && Boxed(query) && m <= |db|
    ensures Conditions(db, schema, query).Ok? <==> forall i | 0 <= i < |db| :: TargetConditions(db, schema, query, i).Ok?
    ensures Conditions(db, schema, query).Ok? ==>
      && Concat(TargetSteps(db, schema, query)[..m]).Ok?
      && Concat(TargetSteps(db, schema, query)[..m]).value <= Conditions(db, schema, query).value
  {
    var targets := TargetSteps(db, schema, query);
    assert forall i | 0 <= i < |db| :: targets[i] == TargetConditions(db, schema, query, i);
    ConcatOk(targets);
    if Concat(targets).Ok? {
      ConcatPrefix(targets, m);
    }
  }

  /**
   * A compiled predicate accepts a record exactly when every collected condition holds
   * of it, and there is at least one condition.
   */
  lemma CompiledAcceptsIff(db: seq<Prop>, schema: seq<FilterProp>, query: seq<Value>, rec: Record)
    requires |query| == |schema| && Boxed(query)
    requires Compile(db, schema, query).Ok?
    ensures Conditions(db, schema, query).Ok? && Conditions(db, schema, query).value != []
    ensures var cs := Conditions(db, schema, query).value;
      Eval(Compile(db, schema, query).value, rec) == Some(true) <==>
        forall i | 0 <= i < |cs| :: EvalCond(cs[i], rec) == Some(true)
  {
    EvalAllHolds(Conditions(db, schema, query).value, rec);
  }

  /**
   * With every filter value null there is no condition: compilation fails with a
   * misconfigured pair's error, or else `Aggregate` throws on the empty list.
   */
  lemma AllNullFails(db: seq<Prop>, schema: seq<FilterProp>, query: seq<Value>)
    requires |query| == |schema| && Boxed(query)
    requires forall y | 0 <= y < |query| :: query[y] == Null
    ensures Conditions(db, schema, query).Err? || Conditions(db, schema, query) == Ok([])
    ensures Conditions(db, schema, query).Err? || Compile(db, schema, query) == Err(NoElements)
    ensures Compile(db, schema, query).Err?
  {
    var targets := TargetSteps(db, schema, query);
    forall i | 0 <= i < |db|
      ensures targets[i].Err? || targets[i] == Ok([])
    {
      var ys := Paired(schema, db[i]);
      var steps := PairSteps(db, schema, query, db[i], ys);
      forall j | 0 <= j < |steps|
        ensures steps[j].Err? || steps[j] == Ok([])
      {
        PairConditionSpec(db, db[i], schema[ys[j]], query[ys[j]]);
      }
      ConcatOfEmpties(steps);
    }
    ConcatOfEmpties(targets);
  }

  /** An exception while building the condition of any pair aborts the whole compilation. */
  lemma PairErrorAborts(db: seq<Prop>, schema: seq<FilterProp>, query: seq<Value>, i: nat, y: nat)
    requires |query| == |schema| && Boxed(query)
    requires i < |db| && y < |schema| && Pairs(schema[y], db[i])
    requires PairCondition(db, db[i], schema[y], query[y]).Err?
    ensures Compile(db, schema, query).Err?
  {
    PairedSpec(schema, db[i]);
    var ys := Paired(schema, db[i]);
    var j :| 0 <= j < |ys| && ys[j] == y;
    var steps := PairSteps(db, schema, query, db[i], ys);
    assert steps[j].Err?;
    ConcatOk(steps);
    var targets := TargetSteps(db, schema, query);
    assert targets[i].Err?;
    ConcatOk(targets);
  }

  /**
   * A comparison attribute naming no target property, and a string attribute on a pair
   * whose target property is not a string, make compilation fail whatever the values.
   */
  lemma MisconfiguredPairFails(db: seq<Prop>, schema: seq<FilterProp>, query: seq<Value>, i: nat, y: nat)
    requires |query| == |schema| && Boxed(query)
    requires i < |db| && y < |schema| && Pairs(schema[y], db[i])
    requires var k := Chosen(schema[y].attrs).value;
      || (Group(k) == Numbers && Find(db, schema[y].attrs[k]).None?)
      || (Group(k) == Strings && db[i].ty != Str)
    ensures Compile(db, schema, query).Err?
  {
    PairConditionSpec(db, db[i], schema[y], query[y]);
    PairErrorAborts(db, schema, query, i, y);
  }

  /**
   * The pairing the attributes are meant for: a string attribute on a string filter
   * property paired with a string target property; a comparison attribute naming a
   * target property of `p`'s type, on a filter property of that same type (possibly
   * nullable), with ordering only on integers. Since `Underlying(y.ty) == p.ty`, a
   * nullable target property `p` is never part of an intended pairing: the code cannot
   * compare against one (see `NullableTargetComparisonFails`).
   */
  predicate IntendedPair(db: seq<Prop>, p: Prop, y: FilterProp)
    requires Annotated(y)
  {
    var k := Chosen(y.attrs).value;
    if Group(k) == Strings then p.ty == Str && y.ty == Str
    else
      var q := Find(db, y.attrs[k]);
      && q.Some? && db[q.value].ty == p.ty
      && Underlying(y.ty) == p.ty
      && (k == Equals || p.ty == Int)
  }

  /** A well-typed filter value of an intended pairing always yields its condition. */
  lemma IntendedPairCompiles(db: seq<Prop>, p: Prop, y: FilterProp, v: Value)
    requires Annotated(y) && WellFormedType(y.ty) && IntendedPair(db, p, y)
    requires HasType(v, y.ty)
    ensures v.IntV? ==> InInt32(v.i)
    ensures PairCondition(db, p, y, v).Ok?
  {
    var k := Chosen(y.attrs).value;
    if Group(k) == Numbers && v != Null {
      assert HasType(v, p.ty);
    }
  }

  /**
   * A comparison attribute paired with a nullable target property fails as soon as its
   * filter value is not null: the value is converted to the target property's own type,
   * and `Convert.ChangeType` has no conversion to `Nullable<T>`. The whole compilation
   * then fails.
   */
  lemma NullableTargetComparisonFails(db: seq<Prop>, schema: seq<FilterProp>, query: seq<Value>, i: nat, y: nat)
    requires |query| == |schema| && Boxed(query)
    requires i < |db| && y < |schema| && Pairs(schema[y], db[i])
    requires var k := Chosen(schema[y].attrs).value;
      Group(k) == Numbers && Find(db, schema[y].attrs[k]).Some?
    requires db[i].ty.Nullable? && query[y] != Null
    ensures PairCondition(db, db[i], schema[y], query[y]) == Err(InvalidCast)
    ensures Compile(db, schema, query).Err?
  {
    PairErrorAborts(db, schema, query, i, y);
  }

  /**
   * A comparison condition the compiler built never faults on a record of the target
   * type: the property it names holds a value of the type the filter value was converted
   * to. (String conditions, by contrast, fault on a `null` string; see
   * `StringTestOnNullThrows`.)
   */
  lemma ComparisonNeverFaults(db: seq<Prop>, p: Prop, y: FilterProp, v: Value, c: Cond, rec: Record)
    requires Annotated(y) && (v.IntV? ==> InInt32(v.i))
    requires Group(Chosen(y.attrs).value) == Numbers
    requires PairCondition(db, p, y, v) == Ok(Some(c))
    requires WellTypedRecord(db, rec)
    ensures EvalCond(c, rec).Some?
  {
    var k := Chosen(y.attrs).value;
    var q := Find(db, y.attrs[k]).value;
    assert HasType(rec[db[q].name], db[q].ty);
  }

  /** Every value of a materialized filter instance has its property's type. */
  predicate WellTypedQuery(schema: seq<FilterProp>, query: seq<Value>) {
    |query| == |schema| && forall y | 0 <= y < |schema| :: HasType(query[y], schema[y].ty)
  }

  /** A well-typed filter instance holds only 32-bit integers. */
  lemma WellTypedIsBoxed(schema: seq<FilterProp>, query: seq<Value>)
    requires WellFormedSchema(schema) && WellTypedQuery(schema, query)
    ensures Boxed(query)
  {
    forall i | 0 <= i < |query| && query[i].IntV?
      ensures InInt32(query[i].i)
    {
      assert HasType(query[i], schema[i].ty);
      if schema[i].ty.Nullable? {
        assert HasType(query[i], schema[i].ty.underlying);
      }
    }
  }

  /** Every pairing in the schema is an intended one. */
  predicate IntendedSchema(db: seq<Prop>, schema: seq<FilterProp>) {
    forall i, y | 0 <= i < |db| && 0 <= y < |schema| && Pairs(schema[y], db[i]) ::
      IntendedPair(db, db[i], schema[y])
  }

  /**
   * With every pairing intended, no condition fails to build, and compilation fails
   * only when there is no condition at all.
   */
  lemma IntendedSchemaCompiles(db: seq<Prop>, schema: seq<FilterProp>, query: seq<Value>)
    requires WellFormedSchema(schema) && WellTypedQuery(schema, query) && IntendedSchema(db, schema)
    ensures Boxed(query)
    ensures Conditions(db, schema, query).Ok?
    ensures Compile(db, schema, query).Ok? <==> Conditions(db, schema, query).value != []
  {
    WellTypedIsBoxed(schema, query);
    var targets := TargetSteps(db, schema, query);
    forall i | 0 <= i < |db|
      ensures targets[i].Ok?
    {
      var ys := Paired(schema, db[i]);
      var steps := PairSteps(db, schema, query, db[i], ys);
      forall j | 0 <= j < |steps|
        ensures steps[j].Ok?
      {
        IntendedPairCompiles(db, db[i], schema[ys[j]], query[ys[j]]);
      }
      ConcatOk(steps);
    }
    ConcatOk(targets);
  }

  /** A materialized filter instance is well typed, so it holds only 32-bit integers. */
  lemma MaterializedIsBoxed(schema: seq<FilterProp>, params: RawMap)
    requires WellFormedSchema(schema) && Materialize(schema, params).Ok?
    ensures WellTypedQuery(schema, Materialize(schema, params).value)
    ensures Boxed(Materialize(schema, params).value)
  {
    MaterializeSpec(schema, params);
    var query := Materialize(schema, params).value;
    forall y | 0 <= y < |schema|
      ensures HasType(query[y], schema[y].ty)
    {
      assert Assigned(schema[y], params) == Ok(query[y]);
      AssignedTyped(schema[y], params);
    }
    WellTypedIsBoxed(schema, query);
  }

  /** What `GetPredicateFromDictionary` returns: the compiled materialized instance, or the first error. */
  function Pipeline(db: seq<Prop>, schema: seq<FilterProp>, params: RawMap): Result<Expr, Error>
    requires WellFormedSchema(schema)
  {
    var query :- Materialize(schema, params);
    MaterializedIsBoxed(schema, params);
    Compile(db, schema, query)
  }

  /** `GetPredicateFromDictionary<TDB, TQE>(queryParams)`. */
  method GetPredicateFromDictionary(db: seq<Prop>, schema: seq<FilterProp>, params: RawMap) returns (r: Result<Expr, Error>)
    requires WellFormedSchema(schema)
    ensures r == Pipeline(db, schema, params)
  {
    var query := GetQueryObject(schema, params);
    if query.Err? {
      return Err(query.error);
    }
    MaterializedIsBoxed(schema, params);
    r := GetPredicate(db, schema, query.value);
  }

  /** The extension method `queryParams.ToPredicate<TDB, TQE>()`. */
  method ToPredicate(params: RawMap, db: seq<Prop>, schema: seq<FilterProp>) returns (r: Result<Expr, Error>)
    requires WellFormedSchema(schema)
    ensures r == Pipeline(db, schema, params)
  {
    r := GetPredicateFromDictionary(db, schema, params);
  }

  /**
   * A conversion error is reported before anything is compiled, and dictionary keys
   * that name no filter property make no difference.
   */
  lemma PipelineErrorsAndForeignKeys(db: seq<Prop>, schema: seq<FilterProp>, params: RawMap, key: string, raw: Option<string>)
    requires WellFormedSchema(schema)
    requires forall y | 0 <= y < |schema| :: schema[y].name != key
    ensures Materialize(schema, params).Err? ==> Pipeline(db, schema, params) == Err(Materialize(schema, params).error)
    ensures Pipeline(db, schema, params[key := raw]) == Pipeline(db, schema, params)
  {
    ForeignKeyIgnored(schema, params, key, raw);
  }

  /**
   * A filter property with no key keeps its default: a string or nullable property then
   * adds no condition, while an `int` property adds one against 0.
   */
  lemma MissingKeyUsesDefault(db: seq<Prop>, schema: seq<FilterProp>, params: RawMap, i: nat, y: nat)
    requires WellFormedSchema(schema) && Materialize(schema, params).Ok?
    requires i < |db| && y < |schema| && Pairs(schema[y], db[i]) && schema[y].name !in params
    ensures Materialize(schema, params).value[y] == Default(schema[y].ty)
    ensures var v := Materialize(schema, params).value[y];
      v.IntV? ==> InInt32(v.i)
    ensures var v := Materialize(schema, params).value[y]; var c := PairCondition(db, db[i], schema[y], v);
      c.Ok? ==> (c.value.Some? <==> schema[y].ty == Int)
  {
    MaterializeSpec(schema, params);
    var query := Materialize(schema, params).value;
    assert Assigned(schema[y], params) == Ok(query[y]);
    AssignedTyped(schema[y], params);
    PairConditionSpec(db, db[i], schema[y], query[y]);
  }
}
