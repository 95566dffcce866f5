/**
 * The filtering attributes a filter-schema property can carry. Each attribute is
 * one operator kind plus the `PropertyName` its constructor was given: the name of
 * a property of the target ("DB") type.
 */
module Attributes {
  import opened Wrappers

  /** The five operator attributes; there is no other. */
  datatype OpKind = StartWith | Contains | GreaterOrEqual | LessOrEqual | Equals

  /** The nested class that declares each attribute: `String` or `Numbers`. */
  datatype OpGroup = Strings | Numbers

  function Group(k: OpKind): OpGroup {
    match k
    case StartWith | Contains => Strings
    case GreaterOrEqual | LessOrEqual | Equals => Numbers
  }

  /**
   * The attributes attached to one property. An attribute kind cannot be applied twice
   * to the same property, so the attributes form a map from kind to the `PropertyName`
   * passed to that kind's constructor, unchanged.
   */
  type AttributeSet = map<OpKind, string>

  /** One attribute instance: its kind and the `PropertyName` its constructor stored. */
  datatype PredicateAttribute = PredicateAttribute(kind: OpKind, propertyName: string)

  /** No kind is attached twice to one property: no attribute allows multiple use. */
  predicate DistinctKinds(attached: seq<PredicateAttribute>) {
    forall i, j | 0 <= i < j < |attached| :: attached[i].kind != attached[j].kind
  }

  /** The attributes of one property, keyed by kind. */
  function Attach(attached: seq<PredicateAttribute>): AttributeSet {
    if attached == [] then map[]
    else
      var n := |attached| - 1;
      Attach(attached[..n])[attached[n].kind := attached[n].propertyName]
  }

  /**
   * When no kind is attached twice, the map holds exactly the attached kinds, each with
   * the `PropertyName` its constructor stored.
   */
  lemma {:induction false} AttachSpec(attached: seq<PredicateAttribute>)
    requires DistinctKinds(attached)
    ensures forall i | 0 <= i < |attached| ::
      attached[i].kind in Attach(attached) && Attach(attached)[attached[i].kind] == attached[i].propertyName
    ensures forall k | k in Attach(attached) :: exists i | 0 <= i < |attached| :: attached[i].kind == k
  {
    if attached != [] {
      var n := |attached| - 1;
      var init := attached[..n];
      assert forall i | 0 <= i < n :: init[i] == attached[i];
      AttachSpec(init);
      var attrs := Attach(attached);
      assert attrs == Attach(init)[attached[n].kind := attached[n].propertyName];
      forall i | 0 <= i < |attached|
        ensures attached[i].kind in attrs && attrs[attached[i].kind] == attached[i].propertyName
      {
        if i < n {
          assert init[i].kind in Attach(init) && init[i].kind != attached[n].kind;
        }
      }
      forall k | k in attrs
        ensures exists i | 0 <= i < |attached| :: attached[i].kind == k
      {
        if k != attached[n].kind {
          assert k in Attach(init);
          var i :| 0 <= i < n && init[i].kind == k;
          assert attached[i].kind == k;
        } else {
          assert attached[n].kind == k;
        }
      }
    }
  }

  /** The order in which the compiler tests for the attribute kinds. */
  const Precedence: seq<OpKind> := [StartWith, Contains, GreaterOrEqual, LessOrEqual, Equals]

  /** The position of a kind in `Precedence`. */
  function Rank(k: OpKind): nat {
    match k
    case StartWith => 0
    case Contains => 1
    case GreaterOrEqual => 2
    case LessOrEqual => 3
    case Equals => 4
  }

  /** `Precedence` lists every kind exactly once, at its rank; two strings, three numbers. */
  lemma PrecedenceEnumeratesKinds()
    ensures |Precedence| == 5
    ensures forall k: OpKind :: Rank(k) < 5 && Precedence[Rank(k)] == k
    ensures forall i, j | 0 <= i < j < |Precedence| :: Precedence[i] != Precedence[j]
    ensures forall i | 0 <= i < |Precedence| :: (Group(Precedence[i]) == Strings <==> i < 2)
  {
    forall k: OpKind ensures Rank(k) < 5 && Precedence[Rank(k)] == k {
      match k
      case StartWith =>
      case Contains =>
      case GreaterOrEqual =>
      case LessOrEqual =>
      case Equals =>
    }
  }

  /**
   * The one attribute the compiler acts on when a property carries several:
   * the first kind of `Precedence` that is present.
   */
  function Chosen(attrs: AttributeSet): (r: Option<OpKind>)
    ensures r.None? <==> attrs == map[]
    ensures r.Some? ==> r.value in attrs && forall k | k in attrs :: Rank(r.value) <= Rank(k)
  {
    if StartWith in attrs then Some(StartWith)
    else if Contains in attrs then Some(Contains)
    else if GreaterOrEqual in attrs then Some(GreaterOrEqual)
    else if LessOrEqual in attrs then Some(LessOrEqual)
    else if Equals in attrs then Some(Equals)
    else
      NoKindMeansEmpty(attrs);
      None
  }

  /**
   * The chosen kind is the first entry of `Precedence` the property carries; with
   * none chosen, the property carries no entry of `Precedence`.
   */
  lemma ChosenFirstInPrecedence(attrs: AttributeSet)
    ensures Chosen(attrs).None? ==> forall i | 0 <= i < |Precedence| :: Precedence[i] !in attrs
    ensures Chosen(attrs).Some? ==> Rank(Chosen(attrs).value) < |Precedence|
    ensures Chosen(attrs).Some? ==>
      && Precedence[Rank(Chosen(attrs).value)] == Chosen(attrs).value
      && forall i | 0 <= i < Rank(Chosen(attrs).value) :: Precedence[i] !in attrs
  {
    PrecedenceEnumeratesKinds();
  }

  /** A map keyed by operator kinds that holds none of the five is empty. */
  lemma NoKindMeansEmpty(attrs: AttributeSet)
    requires StartWith !in attrs && Contains !in attrs && GreaterOrEqual !in attrs
    requires LessOrEqual !in attrs && Equals !in attrs
    ensures attrs == map[]
  {
    forall k | k in attrs ensures false {
      match k
      case StartWith =>
      case Contains =>
      case GreaterOrEqual =>
      case LessOrEqual =>
      case Equals =>
    }
    assert attrs.Keys == {};
  }

  /** Ranks are distinct, so the chosen kind is the only one of least rank. */
  lemma ChosenIsUnique(attrs: AttributeSet, k: OpKind)
    requires k in attrs && forall k' | k' in attrs :: Rank(k) <= Rank(k')
    ensures Chosen(attrs) == Some(k)
  {
  }
}
