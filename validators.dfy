/** The validator combinators of `src/form/validators.ts`. A validator is
    called with the rule, the field's value and a callback; the model records
    what one call did. */
module Validators {
  import opened Js

  /** The rule a validator is attached to; only its message is used. */
  datatype Rule = Rule(message: Value)

  /** One call of a validator: the arguments it passed to `callback`, in
      order (`callback()` passes `undefined`), and how many times it read the
      other field through `getFn`. */
  datatype Run = Run(callbacks: seq<Value>, lookups: nat)

  /** The validator reported once, and reported the field valid (`undefined`)
      or invalid (the rule's message). */
  predicate Reports(r: Run, valid: bool, rule: Rule)
  {
    |r.callbacks| == 1 && r.callbacks[0] == (if valid then Undefined else rule.message)
  }

  /** `test(fn)`: valid iff `fn(value)` holds. */
  function Test(fn: Value -> bool, rule: Rule, value: Value): (r: Run)
    ensures Reports(r, fn(value), rule)
    ensures r.lookups == 0
  {
    if fn(value) then Run([Undefined], 0) else Run([rule.message], 0)
  }

  /** `requiredBy(getFn, testFn)`: a truthy value is valid without looking at
      the other field; a falsy value is valid iff the other field is falsy, or,
      with a `testFn`, iff `testFn(value, other)` holds. */
  function RequiredBy(getFn: () -> Value, testFn: Option<(Value, Value) -> bool>, rule: Rule, value: Value): (r: Run)
    ensures Truthy(value) ==> r.lookups == 0 && Reports(r, true, rule)
    ensures !Truthy(value) ==> r.lookups == 1
    ensures !Truthy(value) && testFn.None? ==> Reports(r, !Truthy(getFn()), rule)
    ensures !Truthy(value) && testFn.Some? ==> Reports(r, testFn.value(value, getFn()), rule)
  {
    var lookups := if Truthy(value) then 0 else 1;
    var valid :=
      if Truthy(value) then true
      else
        var fieldValue := getFn();
        match testFn
        case None => !Truthy(fieldValue)
        case Some(t) => t(value, fieldValue);
    Run([if valid then Undefined else rule.message], lookups)
  }

  /** `equalWith(getFn)`: valid iff `value === getFn()`. */
  function EqualWith(getFn: () -> Value, rule: Rule, value: Value): (r: Run)
    ensures Reports(r, StrictEquals(value, getFn()), rule)
    ensures r.lookups == 1
  {
    Run([if StrictEquals(value, getFn()) then Undefined else rule.message], 1)
  }

  /** `requiredBy` without a `testFn` makes the field required exactly when
      the other field is set: it rejects iff the value is falsy and the other
      field's value truthy. */
  lemma RequiredByAcceptsIff(getFn: () -> Value, rule: Rule, value: Value)
    requires rule.message != Undefined
    ensures RequiredBy(getFn, None, rule, value).callbacks[0] == Undefined <==> (Truthy(value) || !Truthy(getFn()))
  {
  }
}
