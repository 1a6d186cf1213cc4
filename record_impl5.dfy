/**
 * `RecordImpl5`: a record of degree 5. Its values live in a buffer of five
 * slots that the setters overwrite in place; each setter returns the record
 * itself.
 */
module RecordImpl5 {
  import opened Wrappers
  import opened Qom
  import Rows

  class Record5 {
    /** The fields of the row the record was created from. */
    const fields: seq<Field>
    /** The value buffer; `None` is a `null` slot. */
    const values: array<Option<Value>>

    predicate Valid()
      reads this
    {
      |fields| == 5 && values.Length == 5
    }

    /** `new RecordImpl5(row)`: a record over the row's fields with every slot `null`. */
    constructor (fields: seq<Field>)
      requires |fields| == 5
      ensures Valid() && this.fields == fields
      ensures values[..] == [None, None, None, None, None]
      ensures fresh(values)
    {
      this.fields := fields;
      values := new Option<Value>[5](_ => None);
      new;
      assert values[..] == [values[0], values[1], values[2], values[3], values[4]];
    }

    /** The record as a row sees it. */
    function Snapshot(): (r: Rows.RecordValue)
      requires Valid()
      reads this, values
      ensures Rows.WellFormed(r) && |r.fields| == 5
    {
      Rows.RecordValue(fields, values[..])
    }

    function Field1(): Field requires Valid() reads this { fields[0] }
    function Field2(): Field requires Valid() reads this { fields[1] }
    function Field3(): Field requires Valid() reads this { fields[2] }
    function Field4(): Field requires Valid() reads this { fields[3] }
    function Field5(): Field requires Valid() reads this { fields[4] }

    function Value1(): Option<Value> requires Valid() reads this, values { values[0] }
    function Value2(): Option<Value> requires Valid() reads this, values { values[1] }
    function Value3(): Option<Value> requires Valid() reads this, values { values[2] }
    function Value4(): Option<Value> requires Valid() reads this, values { values[3] }
    function Value5(): Option<Value> requires Valid() reads this, values { values[4] }

    function Component1(): Option<Value> requires Valid() reads this, values { Value1() }
    function Component2(): Option<Value> requires Valid() reads this, values { Value2() }
    function Component3(): Option<Value> requires Valid() reads this, values { Value3() }
    function Component4(): Option<Value> requires Valid() reads this, values { Value4() }
    function Component5(): Option<Value> requires Valid() reads this, values { Value5() }

    /** `componentK()` is `valueK()` for every K, and the values are the buffer in order. */
    lemma ComponentsAreValues()
      requires Valid()
      ensures [Component1(), Component2(), Component3(), Component4(), Component5()] == values[..]
      ensures [Value1(), Value2(), Value3(), Value4(), Value5()] == values[..]
    {
      assert values[..] == [values[0], values[1], values[2], values[3], values[4]];
    }

    /** `fieldsRow()`: the row of `field1()` … `field5()`, which is the record's own fields. */
    function FieldsRow(): (r: Rows.Row)
      requires Valid()
      reads this
      ensures r.fields == fields
    {
      Rows.Row([Field1(), Field2(), Field3(), Field4(), Field5()])
    }

    /** `valuesRow()`: position K holds `valueK()` typed like `fieldK()`; it is the generic `valuesRow` of the record. */
    function ValuesRow(): (r: Rows.Row)
      requires Valid()
      reads this, values
      ensures Rows.Degree(r) == 5
      ensures r == Rows.ValuesRow(Snapshot())
    {
      Rows.Row([Val(Value1(), FieldType(Field1())), Val(Value2(), FieldType(Field2())),
                Val(Value3(), FieldType(Field3())), Val(Value4(), FieldType(Field4())),
                Val(Value5(), FieldType(Field5()))])
    }

    /** `set(index, value)`: overwrite one slot of the buffer. */
    method Set(index: nat, value: Option<Value>)
      requires Valid() && index < 5
      modifies values
      ensures values[..] == old(values[..])[index := value]
    {
      values[index] := value;
    }

    /** `value1(v)`: write slot 0 and return this record. */
    method SetValue1(value: Option<Value>) returns (r: Record5)
      requires Valid()
      modifies values
      ensures r == this && Value1() == value
      ensures values[..] == old(values[..])[0 := value]
    {
      Set(0, value);
      r := this;
    }

    /** `value2(v)`: write slot 1 and return this record. */
    method SetValue2(value: Option<Value>) returns (r: Record5)
      requires Valid()
      modifies values
      ensures r == this && Value2() == value
      ensures values[..] == old(values[..])[1 := value]
    {
      Set(1, value);
      r := this;
    }

    /** `value3(v)`: write slot 2 and return this record. */
    method SetValue3(value: Option<Value>) returns (r: Record5)
      requires Valid()
      modifies values
      ensures r == this && Value3() == value
      ensures values[..] == old(values[..])[2 := value]
    {
      Set(2, value);
      r := this;
    }

    /** `value4(v)`: write slot 3 and return this record. */
    method SetValue4(value: Option<Value>) returns (r: Record5)
      requires Valid()
      modifies values
      ensures r == this && Value4() == value
      ensures values[..] == old(values[..])[3 := value]
    {
      Set(3, value);
      r := this;
    }

    /** `value5(v)`: write slot 4 and return this record. */
    method SetValue5(value: Option<Value>) returns (r: Record5)
      requires Valid()
      modifies values
      ensures r == this && Value5() == value
      ensures values[..] == old(values[..])[4 := value]
    {
      Set(4, value);
      r := this;
    }

    /** `values(t1, …, t5)`: write the five slots in order and return this record. */
    method SetValues(t1: Option<Value>, t2: Option<Value>, t3: Option<Value>, t4: Option<Value>, t5: Option<Value>)
      returns (r: Record5)
      requires Valid()
      modifies values
      ensures r == this
      ensures values[..] == [t1, t2, t3, t4, t5]
    {
      Set(0, t1);
      Set(1, t2);
      Set(2, t3);
      Set(3, t4);
      Set(4, t5);
      r := this;
      assert values[..] == [values[0], values[1], values[2], values[3], values[4]];
    }
  }
}
