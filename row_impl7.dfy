/** `RowImpl7`: the degree-7 accessors and argument lists of a row value expression. */
module RowImpl7 {
  import opened Wrappers
  import opened Qom
  import opened Rows

  type Row7 = r: Row | Degree(r) == 7 witness Row([One, One, One, One, One, One, One])

  /** `field1()`: `fields.field(0)`. */
  function Field1(r: Row7): Field { r.fields[0] }

  /** `field2()`: `fields.field(1)`. */
  function Field2(r: Row7): Field { r.fields[1] }

  /** `field3()`: `fields.field(2)`. */
  function Field3(r: Row7): Field { r.fields[2] }

  /** `field4()`: `fields.field(3)`. */
  function Field4(r: Row7): Field { r.fields[3] }

  /** `field5()`: `fields.field(4)`. */
  function Field5(r: Row7): Field { r.fields[4] }

  /** `field6()`: `fields.field(5)`. */
  function Field6(r: Row7): Field { r.fields[5] }

  /** `field7()`: `fields.field(6)`. */
  function Field7(r: Row7): Field { r.fields[6] }

  /** The accessors return the row's fields in order and together spell the row. */
  lemma FieldAccessors(r: Row7)
    ensures Row([Field1(r), Field2(r), Field3(r), Field4(r), Field5(r), Field6(r), Field7(r)]) == r
  {
    assert r.fields == [r.fields[0], r.fields[1], r.fields[2], r.fields[3], r.fields[4], r.fields[5], r.fields[6]];
  }

  /** `compare(comparator, t1, …, t7)`: each value wrapped with the data type of its position. */
  function CompareValues(r: Row7, c: Comparator, t1: Option<Value>, t2: Option<Value>, t3: Option<Value>, t4: Option<Value>, t5: Option<Value>, t6: Option<Value>, t7: Option<Value>): (cond: Condition)
    ensures cond == RowCondition(r.fields,
      [Val(t1, FieldType(Field1(r))),
       Val(t2, FieldType(Field2(r))),
       Val(t3, FieldType(Field3(r))),
       Val(t4, FieldType(Field4(r))),
       Val(t5, FieldType(Field5(r))),
       Val(t6, FieldType(Field6(r))),
       Val(t7, FieldType(Field7(r)))], c)
  {
    Compare(r, c, ValuesOperand([t1, t2, t3, t4, t5, t6, t7]))
  }

  /** `compare(comparator, f1, …, f7)`: each field made null-safe with the data type of its position. */
  function CompareFields(r: Row7, c: Comparator, f1: Option<Field>, f2: Option<Field>, f3: Option<Field>, f4: Option<Field>, f5: Option<Field>, f6: Option<Field>, f7: Option<Field>): (cond: Condition)
    ensures cond == RowCondition(r.fields,
      [NullSafe(f1, FieldType(Field1(r))),
       NullSafe(f2, FieldType(Field2(r))),
       NullSafe(f3, FieldType(Field3(r))),
       NullSafe(f4, FieldType(Field4(r))),
       NullSafe(f5, FieldType(Field5(r))),
       NullSafe(f6, FieldType(Field6(r))),
       NullSafe(f7, FieldType(Field7(r)))], c)
  {
    Compare(r, c, FieldsOperand([f1, f2, f3, f4, f5, f6, f7]))
  }

  /** `between(t1, …, t7)` and its variants: the lower bound wrapped position by position, with the method's flags. */
  function BetweenValues(r: Row7, m: BetweenMethod, t1: Option<Value>, t2: Option<Value>, t3: Option<Value>, t4: Option<Value>, t5: Option<Value>, t6: Option<Value>, t7: Option<Value>): (s: BetweenAndStep)
    ensures s.left == r.fields
    ensures s.min == [Val(t1, FieldType(Field1(r))),
       Val(t2, FieldType(Field2(r))),
       Val(t3, FieldType(Field3(r))),
       Val(t4, FieldType(Field4(r))),
       Val(t5, FieldType(Field5(r))),
       Val(t6, FieldType(Field6(r))),
       Val(t7, FieldType(Field7(r)))]
    ensures (s.not, s.symmetric) == (m.NotBetween? || m.NotBetweenSymmetric?, m.BetweenSymmetric? || m.NotBetweenSymmetric?)
  {
    BetweenStep(r, m, ValuesOperand([t1, t2, t3, t4, t5, t6, t7]))
  }
}
