/** The condition expressions the data mapper builds itself: comparisons of a
    property with a predicate, function conditions on a path, and the boolean
    combinators, together with a reference meaning for the shapes the mapper
    produces. */
module Conditions {
  import opened Wrappers
  import opened Values
  import opened AttributePath

  /** A `ConditionExpressionPredicate`: its `type` and its operands. */
  datatype Predicate = Predicate(kind: string, operands: seq<JsValue>)

  datatype Condition =
    | Compare(subject: string, test: Predicate)
    | FunctionCondition(name: string, path: AttributePath)
    | And(conditions: seq<Condition>)
    | Or(conditions: seq<Condition>)
    | Not(condition: Condition)

  /** `{type: 'Equals', subject, object}` with the given object. */
  function Equals(subject: string, operand: JsValue): Condition
  {
    Compare(subject, Predicate("Equals", [operand]))
  }

  /** `condition ? {type: 'And', conditions: [condition, extra]} : extra`: a
      condition object is always truthy. */
  function Conjoin(condition: Option<Condition>, extra: Condition): Condition
  {
    if condition.Some? then And([condition.value, extra]) else extra
  }

  /** Whether a condition holds for a stored record seen through its top-level
      properties: `Equals` compares a property with its operand,
      `attribute_not_exists` of a one-name path asks that the property be
      absent, and the combinators combine. Other predicates and functions are
      not given a meaning here and never hold. */
  predicate Holds(c: Condition, stored: seq<(string, JsValue)>)
    decreases c
  {
    match c
    case Compare(subject, p) =>
      p.kind == "Equals" && |p.operands| == 1 && Get(stored, subject) == Some(p.operands[0])
    case FunctionCondition(name, path) =>
      name == "attribute_not_exists" && |path.elements| == 1 && path.elements[0].AttributeName?
      && Get(stored, path.elements[0].name).None?
    case And(cs) => forall i :: 0 <= i < |cs| ==> Holds(cs[i], stored)
    case Or(cs) => exists i :: 0 <= i < |cs| && Holds(cs[i], stored)
    case Not(inner) => !Holds(inner, stored)
  }

  /** Conjoining adds exactly one obligation to whatever was there. */
  lemma ConjoinHolds(condition: Option<Condition>, extra: Condition, stored: seq<(string, JsValue)>)
    ensures Holds(Conjoin(condition, extra), stored)
        <==> (condition.None? || Holds(condition.value, stored)) && Holds(extra, stored)
  {
    if condition.Some? {
      var cs := [condition.value, extra];
      assert cs[0] == condition.value && cs[1] == extra;
    }
  }
}
