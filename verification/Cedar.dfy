/** The part of Cedar the daemon relies on: condition evaluation and authorization, at the level of syntax trees.
    Follows the chapters "Authorization" and "Operators" of the Cedar Policy Language Reference Guide. */
module Cedar {
  import opened Lists

  datatype Value = StringValue(text: string) | LongValue(number: int) | BoolValue(truth: bool)

  datatype Entity = Entity(kind: string, id: string)

  datatype Expr =
    | Constant(value: Value)
    | ContextAttribute(name: string)
    | Equal(left: Expr, right: Expr)
    | AtLeast(left: Expr, right: Expr)
    | And(left: Expr, right: Expr)

  datatype Scope = Any | Is(entity: Entity)
  {
    predicate Covers(e: Entity) {
      Any? || entity == e
    }
  }

  datatype Effect = Permit | Forbid

  datatype Policy = Policy(
    id: string, effect: Effect, principal: Scope, action: Scope, resource: Scope, condition: Option<Expr>)

  datatype Request = Request(principal: Entity, action: Entity, resource: Entity, context: map<string, Value>)

  /** The value of an expression, or None when evaluation is an error:
      a missing attribute, or an operand of the wrong type. `&&` does not evaluate its right side after false. */
  function Eval(e: Expr, context: map<string, Value>): Option<Value> {
    match e
    case Constant(v) => Some(v)
    case ContextAttribute(name) => if name in context then Some(context[name]) else None
    case Equal(l, r) =>
      var x, y := Eval(l, context), Eval(r, context);
      if x.Some? && y.Some? then Some(BoolValue(x.value == y.value)) else None
    case AtLeast(l, r) =>
      var x, y := Eval(l, context), Eval(r, context);
      if x.Some? && y.Some? && x.value.LongValue? && y.value.LongValue?
      then Some(BoolValue(x.value.number >= y.value.number)) else None
    case And(l, r) =>
      var x := Eval(l, context);
      if x.None? || !x.value.BoolValue? then None
      else if !x.value.truth then x
      else
        var y := Eval(r, context);
        if y.Some? && y.value.BoolValue? then y else None
  }

  /** A policy whose condition is an error is not satisfied. */
  predicate Satisfied(p: Policy, req: Request) {
    && p.principal.Covers(req.principal) && p.action.Covers(req.action) && p.resource.Covers(req.resource)
    && (p.condition.None? || Eval(p.condition.value, req.context) == Some(BoolValue(true)))
  }

  /** Denied unless some permit is satisfied and no forbid is. */
  predicate Allows(ps: seq<Policy>, req: Request) {
    && (exists p :: p in ps && p.effect == Permit && Satisfied(p, req))
    && (forall p :: p in ps && p.effect == Forbid ==> !Satisfied(p, req))
  }

  /** `es[0] && es[1] && ...`, associating to the left. */
  function Conjunction(es: seq<Expr>): Expr
    requires es != []
  {
    if |es| == 1 then es[0] else And(Conjunction(Init(es)), Last(es))
  }

  ghost predicate Holds(e: Expr, context: map<string, Value>) {
    Eval(e, context) == Some(BoolValue(true))
  }

  /** A conjunction holds exactly when all its clauses do. */
  lemma {:induction false} ConjunctionHolds(es: seq<Expr>, context: map<string, Value>)
    requires es != []
    ensures Holds(Conjunction(es), context) <==> forall i :: 0 <= i < |es| ==> Holds(es[i], context)
  {
    if |es| > 1 {
      ConjunctionHolds(Init(es), context);
    }
  }
}
