/**
 * The compiled predicate: atomic conditions over one record of the target type,
 * joined by `AndAlso`, and what the compiled delegate returns on a record.
 */
module Predicates {
  import opened Wrappers
  import opened Values
  import opened Schema

  /** One atomic condition of the predicate, on the record property `field`. */
  datatype Cond =
    | StartsWith(field: string, prefix: string)  // record.field.StartsWith(prefix)
    | ContainsText(field: string, infix: string) // record.field.Contains(infix)
    | AtLeast(field: string, bound: int)         // record.field >= bound
    | AtMost(field: string, bound: int)          // record.field <= bound
    | EqualTo(field: string, operand: Value)     // record.field == operand

  /** The body of the compiled lambda. */
  datatype Expr = Atom(cond: Cond) | AndAlso(left: Expr, right: Expr)

  /**
   * One condition on a record: `Some(b)`, or `None` when evaluating it throws
   * (a string method called on a `null` property).
   */
  function EvalCond(c: Cond, rec: Record): Option<bool> {
    if c.field !in rec then None
    else
      var v := rec[c.field];
      match c
      case StartsWith(_, prefix) => if v.StrV? then Some(prefix <= v.s) else None
      case ContainsText(_, infix) => if v.StrV? then Some(IsSubstring(infix, v.s)) else None
      case AtLeast(_, b) => if v.IntV? then Some(v.i >= b) else None
      case AtMost(_, b) => if v.IntV? then Some(v.i <= b) else None
      case EqualTo(_, w) => Some(v == w)
  }

  /** The compiled delegate; `AndAlso` evaluates its right operand only when the left one is true. */
  function Eval(e: Expr, rec: Record): Option<bool> {
    match e
    case Atom(c) => EvalCond(c, rec)
    case AndAlso(l, r) =>
      var left := Eval(l, rec);
      if left == Some(true) then Eval(r, rec) else left
  }

  /** Reference meaning of a list of conditions: checked first to last, up to the first that is not true. */
  function EvalAll(cs: seq<Cond>, rec: Record): Option<bool> {
    if cs == [] then Some(true)
    else
      var first := EvalCond(cs[0], rec);
      if first == Some(true) then EvalAll(cs[1..], rec) else first
  }

  /** A list of conditions accepts a record exactly when every condition holds of it. */
  lemma {:induction false} EvalAllHolds(cs: seq<Cond>, rec: Record)
    ensures EvalAll(cs, rec) == Some(true) <==> forall i | 0 <= i < |cs| :: EvalCond(cs[i], rec) == Some(true)
  {
    if cs != [] {
      EvalAllHolds(cs[1..], rec);
      assert forall i | 1 <= i < |cs| :: cs[1..][i - 1] == cs[i];
    }
  }

  /** `Aggregate(Expression.AndAlso)` on a non-empty list: `((c0 && c1) && c2) && ...`. */
  function Fold(cs: seq<Cond>): Expr
    requires cs != []
  {
    if |cs| == 1 then Atom(cs[0]) else AndAlso(Fold(cs[..|cs| - 1]), Atom(cs[|cs| - 1]))
  }

  /** Checking one more condition at the end. */
  lemma {:induction false} EvalAllSnoc(cs: seq<Cond>, c: Cond, rec: Record)
    ensures EvalAll(cs + [c], rec) == if EvalAll(cs, rec) == Some(true) then EvalCond(c, rec) else EvalAll(cs, rec)
  {
    if cs != [] {
      assert (cs + [c])[1..] == cs[1..] + [c];
      EvalAllSnoc(cs[1..], c, rec);
    }
  }

  /** The left-nested `AndAlso` chain means what the list means, record by record. */
  lemma {:induction false} FoldMeansAll(cs: seq<Cond>, rec: Record)
    requires cs != []
    ensures Eval(Fold(cs), rec) == EvalAll(cs, rec)
  {
    if |cs| > 1 {
      var init := cs[..|cs| - 1];
      FoldMeansAll(init, rec);
      EvalAllSnoc(init, cs[|cs| - 1], rec);
      assert init + [cs[|cs| - 1]] == cs;
    }
  }

  /**
   * `conditions.Aggregate(Expression.AndAlso)`: throws on an empty list (there is no
   * seed), otherwise a predicate that accepts a record exactly when the list does.
   */
  function Aggregate(cs: seq<Cond>): (r: Result<Expr, Error>)
    ensures r.Err? <==> cs == []
    ensures r.Err? ==> r.error == NoElements
    ensures r.Ok? ==> forall rec :: Eval(r.value, rec) == EvalAll(cs, rec)
  {
    if cs == [] then Err(NoElements)
    else
      assert forall rec :: Eval(Fold(cs), rec) == EvalAll(cs, rec) by {
        forall rec ensures Eval(Fold(cs), rec) == EvalAll(cs, rec) {
          FoldMeansAll(cs, rec);
        }
      }
      Ok(Fold(cs))
  }

  /** An equality condition accepts a record holding the operand and rejects one holding anything else. */
  lemma EqualToAcceptsExactly(f: string, w: Value, rec: Record, other: Value)
    requires other != w
    ensures EvalCond(EqualTo(f, w), rec[f := w]) == Some(true)
    ensures EvalCond(EqualTo(f, w), rec[f := other]) == Some(false)
  {
  }

  /** Both ordering bounds are inclusive: a value equal to the bound passes, one step past it fails. */
  lemma BoundsInclusive(f: string, b: int, rec: Record)
    ensures EvalCond(AtLeast(f, b), rec[f := IntV(b)]) == Some(true)
    ensures EvalCond(AtMost(f, b), rec[f := IntV(b)]) == Some(true)
    ensures EvalCond(AtLeast(f, b), rec[f := IntV(b - 1)]) == Some(false)
    ensures EvalCond(AtMost(f, b), rec[f := IntV(b + 1)]) == Some(false)
  {
  }

  /** A string condition on a property holding `null` throws when the predicate runs. */
  lemma StringTestOnNullThrows(f: string, s: string, rec: Record)
    ensures EvalCond(StartsWith(f, s), rec[f := Null]) == None
    ensures EvalCond(ContainsText(f, s), rec[f := Null]) == None
  {
  }
}
