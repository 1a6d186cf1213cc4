/**
 * `RecordCondition`: a record used as a condition. Every slot holding a
 * non-null value contributes `field = value`; the conjuncts are chained onto
 * `noCondition()` in slot order.
 */
module RecordCondition {
  import opened Wrappers
  import opened Qom
  import opened Rows
  import opened Rendering
  import RowPredicates

  /** The conjunct of a slot: `field.eq(DSL.val(value, field.getDataType()))`. */
  function SlotConjunct(f: Field, x: Value): Condition
  {
    CompareCondition(f, Equals, Val(Some(x), FieldType(f)))
  }

  /** The condition after the loop has visited the first n slots. */
  function Conjunction(r: RecordValue, n: nat): (c: Condition)
    requires WellFormed(r) && n <= |r.fields|
    ensures RowPredicates.ScalarOnly(c) && RowPredicates.Evaluable(c)
  {
    if n == 0 then NoCondition
    else
      var c := Conjunction(r, n - 1);
      if r.values[n - 1].Some? then AndCondition(c, SlotConjunct(r.fields[n - 1], r.values[n - 1].value)) else c
  }

  /** The loop of `accept`: fold the non-null slots into a conjunction. */
  method BuildCondition(r: RecordValue) returns (c: Condition)
    requires WellFormed(r)
    ensures c == Conjunction(r, |r.fields|)
  {
    c := NoCondition;
    var size := |r.fields|;
    var i := 0;
    while i < size
      invariant 0 <= i <= size
      invariant c == Conjunction(r, i)
    {
      var value := r.values[i];
      if value.Some? {
        var f1 := r.fields[i];
        var f2 := Val(value, FieldType(f1));
        c := AndCondition(c, CompareCondition(f1, Equals, f2));
      }
      i := i + 1;
    }
  }

  /** `accept(ctx)`: visit the folded condition. */
  method Accept(r: RecordValue, ctx: Context)
    requires WellFormed(r)
    modifies ctx
    ensures ctx.tokens == old(ctx.tokens) + [Visit(ConditionPart(Conjunction(r, |r.fields|)))]
    ensures ctx.paramType == old(ctx.paramType) && ctx.binds == old(ctx.binds)
  {
    var c := BuildCondition(r);
    ctx.Append([Visit(ConditionPart(c))]);
  }

  /** The conjuncts of a left-deep AND chain that starts from `noCondition`. */
  function Conjuncts(c: Condition): seq<Condition>
  {
    match c
    case NoCondition => []
    case AndCondition(l, x) => Conjuncts(l) + [x]
    case _ => [c]
  }

  /** The indexes below n of the slots holding a value, in increasing order. */
  function NonNullSlots(values: seq<Option<Value>>, n: nat): (s: seq<nat>)
    requires n <= |values|
    ensures forall k :: 0 <= k < |s| ==> s[k] < n && values[s[k]].Some?
    ensures forall k, l :: 0 <= k < l < |s| ==> s[k] < s[l]
    ensures forall i :: 0 <= i < n && values[i].Some? ==> i in s
  {
    if n == 0 then []
    else NonNullSlots(values, n - 1) + (if values[n - 1].Some? then [n - 1] else [])
  }

  /**
   * The folded condition has one conjunct per non-null slot, in slot order,
   * and that conjunct compares the slot's field with the slot's value.
   */
  lemma {:induction false} ConjunctsPerSlot(r: RecordValue, n: nat)
    requires WellFormed(r) && n <= |r.fields|
    ensures var s := NonNullSlots(r.values, n);
      |Conjuncts(Conjunction(r, n))| == |s| &&
      forall k :: 0 <= k < |s| ==>
        Conjuncts(Conjunction(r, n))[k] == SlotConjunct(r.fields[s[k]], r.values[s[k]].value)
  {
    if n > 0 {
      ConjunctsPerSlot(r, n - 1);
    }
  }

  /** The condition is `noCondition` exactly when no slot holds a value. */
  lemma {:induction false} NoValueNoCondition(r: RecordValue, n: nat)
    requires WellFormed(r) && n <= |r.fields|
    ensures Conjunction(r, n) == NoCondition <==> forall i :: 0 <= i < n ==> r.values[i].None?
  {
    if n > 0 {
      NoValueNoCondition(r, n - 1);
    }
  }

  /** The record's values bound at the non-null slots of the first n: each field equals its value. */
  predicate AgreesUpTo(r: RecordValue, n: nat, v: RowPredicates.Valuation)
    requires WellFormed(r) && n <= |r.fields|
  {
    forall i :: 0 <= i < n && r.values[i].Some? ==> v(r.fields[i]) == v(Val(r.values[i], FieldType(r.fields[i])))
  }

  /** The condition holds exactly when the row agrees with the record at every non-null slot. */
  lemma {:induction false} ConditionMeaning(r: RecordValue, n: nat, v: RowPredicates.Valuation)
    requires WellFormed(r) && n <= |r.fields|
    ensures RowPredicates.Eval(Conjunction(r, n), v) <==> AgreesUpTo(r, n, v)
  {
    if n > 0 {
      ConditionMeaning(r, n - 1, v);
    }
  }
}
