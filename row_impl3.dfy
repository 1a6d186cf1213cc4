/** `RowImpl3`: the degree-3 accessors and argument lists of a row value expression. */
module RowImpl3 {
  import opened Wrappers
  import opened Qom
  import opened Rows

  type Row3 = r: Row | Degree(r) == 3 witness Row([One, One, One])

  /** `field1()`: `fields.field(0)`. */
  function Field1(r: Row3): Field { r.fields[0] }

  /** `field2()`: `fields.field(1)`. */
  function Field2(r: Row3): Field { r.fields[1] }

  /** `field3()`: `fields.field(2)`. */
  function Field3(r: Row3): Field { r.fields[2] }

  /** The accessors return the row's fields in order and together spell the row. */
  lemma FieldAccessors(r: Row3)
    ensures Row([Field1(r), Field2(r), Field3(r)]) == r
  {
    assert r.fields == [r.fields[0], r.fields[1], r.fields[2]];
  }

  /** `compare(comparator, t1, t2, t3)`: each value wrapped with the data type of its position. */
  function CompareValues(r: Row3, c: Comparator, t1: Option<Value>, t2: Option<Value>, t3: Option<Value>): (cond: Condition)
    ensures cond == RowCondition(r.fields,
      [Val(t1, FieldType(Field1(r))), Val(t2, FieldType(Field2(r))), Val(t3, FieldType(Field3(r)))], c)
  {
    Compare(r, c, ValuesOperand([t1, t2, t3]))
  }

  /** `compare(comparator, f1, f2, f3)`: each field made null-safe with the data type of its position. */
  function CompareFields(r: Row3, c: Comparator, f1: Option<Field>, f2: Option<Field>, f3: Option<Field>): (cond: Condition)
    ensures cond == RowCondition(r.fields,
      [NullSafe(f1, FieldType(Field1(r))), NullSafe(f2, FieldType(Field2(r))), NullSafe(f3, FieldType(Field3(r)))], c)
  {
    Compare(r, c, FieldsOperand([f1, f2, f3]))
  }

  /** `between(t1, t2, t3)` and its variants: the lower bound wrapped position by position, with the method's flags. */
  function BetweenValues(r: Row3, m: BetweenMethod, t1: Option<Value>, t2: Option<Value>, t3: Option<Value>): (s: BetweenAndStep)
    ensures s.left == r.fields
    ensures s.min == [Val(t1, FieldType(Field1(r))), Val(t2, FieldType(Field2(r))), Val(t3, FieldType(Field3(r)))]
    ensures (s.not, s.symmetric) == (m.NotBetween? || m.NotBetweenSymmetric?, m.BetweenSymmetric? || m.NotBetweenSymmetric?)
  {
    BetweenStep(r, m, ValuesOperand([t1, t2, t3]))
  }
}
