/**
 * Row value expressions (`RowImplN`): how each comparison, BETWEEN,
 * DISTINCT and IN method maps its arguments to a condition node. The
 * mapping is the same at every degree; the degree-specific accessors and
 * argument lists are in the modules RowImpl3 and RowImpl7.
 */
module Rows {
  import opened Wrappers
  import opened Qom
  import RowPredicates

  /** A row value expression: its fields, in order. */
  datatype Row = Row(fields: seq<Field>)

  function Degree(r: Row): nat
  {
    |r.fields|
  }

  /** A record as a row sees it: the record's fields and the values in its slots. */
  datatype RecordValue = RecordValue(fields: seq<Field>, values: seq<Option<Value>>)

  predicate WellFormed(r: RecordValue)
  {
    |r.fields| == |r.values|
  }

  /** `record.valuesRow()`: each value as a bind value typed like the field of its slot. */
  function ValuesRow(r: RecordValue): (row: Row)
    requires WellFormed(r)
    ensures Degree(row) == |r.fields|
  {
    Row(seq(|r.fields|, i requires 0 <= i < |r.fields| => Val(r.values[i], FieldType(r.fields[i]))))
  }

  /** The right-hand sides the overloads of a `RowN` method accept. */
  datatype Operand =
    | RowOperand(row: Row)
    | RecordOperand(record: RecordValue)
    /** `T1 t1, …, TN tN`: plain Java values; `None` is a `null` argument. */
    | ValuesOperand(values: seq<Option<Value>>)
    /** `Field<T1> t1, …, Field<TN> tN`; `None` is a `null` argument. */
    | FieldsOperand(args: seq<Option<Field>>)
    | SelectOperand(query: Select)
    | QuantifiedOperand(quantifier: Quantifier, query: Select)

  /** The operand has the row's degree, which the Java generics guarantee. */
  predicate Fits(row: Row, op: Operand)
  {
    match op
    case RowOperand(r) => Degree(r) == Degree(row)
    case RecordOperand(rec) => WellFormed(rec) && |rec.fields| == Degree(row)
    case ValuesOperand(vs) => |vs| == Degree(row)
    case FieldsOperand(fs) => |fs| == Degree(row)
    case SelectOperand(_) => true
    case QuantifiedOperand(_, _) => true
  }

  /** The operand denotes a row rather than a subquery. */
  predicate RowValued(op: Operand)
  {
    op.RowOperand? || op.RecordOperand? || op.ValuesOperand? || op.FieldsOperand?
  }

  /** `dataType(i)`: the data type of the row's field at index i. */
  function DataTypeAt(row: Row, i: nat): DataType
    requires i < Degree(row)
  {
    FieldType(row.fields[i])
  }

  /**
   * The row a row-valued operand stands for: a record's `valuesRow()`, the
   * values wrapped by `Tools.field(t, dataType(i))`, the fields made
   * null-safe by `Tools.nullSafe(t, dataType(i))`.
   */
  function OperandRow(row: Row, op: Operand): (r: Row)
    requires Fits(row, op) && RowValued(op)
    ensures Degree(r) == Degree(row)
  {
    match op
    case RowOperand(other) => other
    case RecordOperand(rec) => ValuesRow(rec)
    case ValuesOperand(vs) => Row(seq(|vs|, i requires 0 <= i < |vs| => Val(vs[i], DataTypeAt(row, i))))
    case FieldsOperand(fs) => Row(seq(|fs|, i requires 0 <= i < |fs| => NullSafe(fs[i], DataTypeAt(row, i))))
  }

  /** `compare(comparator, operand)`. */
  function Compare(row: Row, c: Comparator, op: Operand): (r: Condition)
    requires Fits(row, op)
    ensures RowValued(op) ==> r.RowCondition? && r.right == OperandRow(row, op).fields
    ensures !RowValued(op) ==> r.RowSubqueryCondition?
    ensures op.SelectOperand? ==> r.subquery == PlainSelect(op.query)
    ensures op.QuantifiedOperand? ==> r.subquery == QuantifiedSelect(op.quantifier, op.query)
  {
    match op
    case SelectOperand(q) => RowSubqueryCondition(row.fields, PlainSelect(q), c)
    case QuantifiedOperand(k, q) => RowSubqueryCondition(row.fields, QuantifiedSelect(k, q), c)
    case _ => RowCondition(row.fields, OperandRow(row, op).fields, c)
  }

  /** The row and comparator a comparison node was built with. */
  function NodeLeft(c: Condition): Option<seq<Field>>
  {
    match c
    case RowCondition(l, _, _) => Some(l)
    case RowSubqueryCondition(l, _, _) => Some(l)
    case _ => None
  }

  function NodeComparator(c: Condition): Option<Comparator>
  {
    match c
    case RowCondition(_, _, k) => Some(k)
    case RowSubqueryCondition(_, _, k) => Some(k)
    case _ => None
  }

  /** The equality and ordering methods of `RowN` with their short aliases. */
  datatype ComparisonMethod =
    | EqualMethod | EqMethod | NotEqualMethod | NeMethod
    | LessThanMethod | LtMethod | LessOrEqualMethod | LeMethod
    | GreaterThanMethod | GtMethod | GreaterOrEqualMethod | GeMethod

  predicate IsAlias(m: ComparisonMethod)
  {
    m.EqMethod? || m.NeMethod? || m.LtMethod? || m.LeMethod? || m.GtMethod? || m.GeMethod?
  }

  /** The method a short alias delegates to: `eq` calls `equal`, `ne` calls `notEqual`, and so on. */
  function Delegate(m: ComparisonMethod): (r: ComparisonMethod)
    requires IsAlias(m)
    ensures !IsAlias(r)
  {
    match m
    case EqMethod => EqualMethod
    case NeMethod => NotEqualMethod
    case LtMethod => LessThanMethod
    case LeMethod => LessOrEqualMethod
    case GtMethod => GreaterThanMethod
    case GeMethod => GreaterOrEqualMethod
  }

  /** The comparator constant a long-named method hands to `compare`. */
  function PassedComparator(m: ComparisonMethod): Comparator
    requires !IsAlias(m)
  {
    match m
    case EqualMethod => Equals
    case NotEqualMethod => NotEquals
    case LessThanMethod => Less
    case LessOrEqualMethod => LessOrEqual
    case GreaterThanMethod => Greater
    case GreaterOrEqualMethod => GreaterOrEqual
  }

  /** The comparison predicate each method name stands for. */
  function Meaning(m: ComparisonMethod): Comparator
  {
    match m
    case EqualMethod | EqMethod => Equals
    case NotEqualMethod | NeMethod => NotEquals
    case LessThanMethod | LtMethod => Less
    case LessOrEqualMethod | LeMethod => LessOrEqual
    case GreaterThanMethod | GtMethod => Greater
    case GreaterOrEqualMethod | GeMethod => GreaterOrEqual
  }

  /** Calling comparison method m on the row with operand op, for every overload. */
  function Invoke(row: Row, m: ComparisonMethod, op: Operand): (r: Condition)
    requires Fits(row, op)
    ensures NodeLeft(r) == Some(row.fields)
    ensures NodeComparator(r) == Some(Meaning(m))
    ensures RowValued(op) <==> r.RowCondition?
    ensures RowValued(op) ==> r.right == OperandRow(row, op).fields
    decreases if IsAlias(m) then 1 else 0
  {
    if IsAlias(m) then Invoke(row, Delegate(m), op)
    else Compare(row, PassedComparator(m), op)
  }

  /** `in(select)`: the IN comparator on a subquery. */
  function InSelect(row: Row, q: Select): (r: Condition)
    ensures r == RowSubqueryCondition(row.fields, PlainSelect(q), In)
  {
    Compare(row, In, SelectOperand(q))
  }

  /** `notIn(select)`: the NOT IN comparator on a subquery. */
  function NotInSelect(row: Row, q: Select): (r: Condition)
    ensures r == RowSubqueryCondition(row.fields, PlainSelect(q), NotIn)
  {
    Compare(row, NotIn, SelectOperand(q))
  }

  // ---------------------------------------------------------------------
  // BETWEEN
  // ---------------------------------------------------------------------

  /** No `null` among the `Field` arguments, which `DSL.row` receives unchanged. */
  predicate NoNullField(op: Operand)
  {
    op.FieldsOperand? ==> forall i :: 0 <= i < |op.args| ==> op.args[i].Some?
  }

  datatype BetweenMethod = Between | BetweenSymmetric | NotBetween | NotBetweenSymmetric

  /** `BetweenAndStepN`: a BETWEEN predicate waiting for its upper bound. */
  datatype BetweenAndStep = BetweenAndStep(left: seq<Field>, min: seq<Field>, not: bool, symmetric: bool)

  /** The one-argument BETWEEN methods: the (not, symmetric) flags per method. */
  function BetweenStep(row: Row, m: BetweenMethod, op: Operand): (s: BetweenAndStep)
    requires Fits(row, op) && RowValued(op) && NoNullField(op)
    ensures s.left == row.fields && s.min == OperandRow(row, op).fields
    ensures s.not <==> m.NotBetween? || m.NotBetweenSymmetric?
    ensures s.symmetric <==> m.BetweenSymmetric? || m.NotBetweenSymmetric?
  {
    var min := OperandRow(row, op).fields;
    match m
    case Between => BetweenAndStep(row.fields, min, false, false)
    case BetweenSymmetric => BetweenAndStep(row.fields, min, false, true)
    case NotBetween => BetweenAndStep(row.fields, min, true, false)
    case NotBetweenSymmetric => BetweenAndStep(row.fields, min, true, true)
  }

  /** `step.and(max)`: the completed `RowBetweenCondition`. */
  function And(step: BetweenAndStep, max: Row): (r: Condition)
    ensures r.RowBetweenCondition? && r.left == step.left && r.min == step.min && r.max == max.fields
    ensures r.not == step.not && r.symmetric == step.symmetric
  {
    RowBetweenCondition(step.left, step.min, max.fields, step.not, step.symmetric)
  }

  /** The two-argument row forms: `between(min, max)` is `between(min).and(max)`. */
  function BetweenRows(row: Row, m: BetweenMethod, min: Row, max: Row): (r: Condition)
    requires Degree(min) == Degree(row)
    ensures r == And(BetweenStep(row, m, RowOperand(min)), max)
  {
    And(BetweenStep(row, m, RowOperand(min)), max)
  }

  /** The emulation the `Row2` documentation gives for each BETWEEN method. */
  function BetweenEmulationOf(m: BetweenMethod, a: seq<Field>, b: seq<Field>, c: seq<Field>): Condition
    requires |a| == |b| == |c| >= 1
  {
    match m
    case Between => RowPredicates.BetweenEmulation(a, b, c)
    case BetweenSymmetric => RowPredicates.BetweenSymmetricEmulation(a, b, c)
    case NotBetween => RowPredicates.NotBetweenEmulation(a, b, c)
    case NotBetweenSymmetric => RowPredicates.NotBetweenSymmetricEmulation(a, b, c)
  }

  /** What each BETWEEN method builds holds exactly when its documented emulation does. */
  lemma BetweenMeansEmulation(row: Row, m: BetweenMethod, min: Row, max: Row, v: RowPredicates.Valuation)
    requires Degree(row) >= 1 && Degree(min) == Degree(row) && Degree(max) == Degree(row)
    ensures RowPredicates.Evaluable(BetweenRows(row, m, min, max))
    ensures RowPredicates.Eval(BetweenRows(row, m, min, max), v) ==
      RowPredicates.Eval(BetweenEmulationOf(m, row.fields, min.fields, max.fields), v)
  {
    var (a, b, c) := (row.fields, min.fields, max.fields);
    match m
    case Between => RowPredicates.BetweenEmulationEval(a, b, c, v);
    case BetweenSymmetric => RowPredicates.BetweenSymmetricEmulationEval(a, b, c, v);
    case NotBetween => RowPredicates.NotBetweenEmulationEval(a, b, c, v);
    case NotBetweenSymmetric => RowPredicates.NotBetweenSymmetricEmulationEval(a, b, c, v);
  }

  // ---------------------------------------------------------------------
  // Comparison semantics
  // ---------------------------------------------------------------------

  /** The emulation the `Row2` documentation gives for each comparator. */
  function ComparisonEmulationOf(k: Comparator, a: seq<Field>, b: seq<Field>): Condition
    requires |a| == |b| >= 1 && RowPredicates.IsOrdering(k)
  {
    match k
    case Equals => RowPredicates.EqualEmulation(a, b)
    case NotEquals => RowPredicates.NotEqualEmulation(a, b)
    case Less => RowPredicates.StrictEmulation(a, b, Less)
    case LessOrEqual => RowPredicates.OrEqualEmulation(a, b, Less)
    case Greater => RowPredicates.StrictEmulation(a, b, Greater)
    case GreaterOrEqual => RowPredicates.OrEqualEmulation(a, b, Greater)
  }

  /**
   * For every row-valued overload, the condition a comparison method
   * builds holds exactly when its documented emulation does.
   */
  lemma ComparisonMeansEmulation(row: Row, m: ComparisonMethod, op: Operand, v: RowPredicates.Valuation)
    requires Degree(row) >= 1 && Fits(row, op) && RowValued(op)
    ensures RowPredicates.Evaluable(Invoke(row, m, op))
    ensures RowPredicates.Eval(Invoke(row, m, op), v) ==
      RowPredicates.Eval(ComparisonEmulationOf(Meaning(m), row.fields, OperandRow(row, op).fields), v)
  {
    var (a, b) := (row.fields, OperandRow(row, op).fields);
    match Meaning(m)
    case Equals => RowPredicates.EqualEmulationEval(a, b, v);
    case NotEquals => RowPredicates.EqualEmulationEval(a, b, v);
    case Less => RowPredicates.StrictEmulationEval(a, b, Less, v);
    case LessOrEqual => RowPredicates.OrEqualEmulationEval(a, b, Less, v);
    case Greater => RowPredicates.StrictEmulationEval(a, b, Greater, v);
    case GreaterOrEqual => RowPredicates.OrEqualEmulationEval(a, b, Greater, v);
  }

  // ---------------------------------------------------------------------
  // [NOT] DISTINCT
  // ---------------------------------------------------------------------

  predicate DistinctOperandOk(row: Row, op: Operand)
  {
    Fits(row, op) && ((RowValued(op) && NoNullField(op)) || op.SelectOperand?)
  }

  function DistinctOperandOf(row: Row, op: Operand): DistinctOperand
    requires DistinctOperandOk(row, op)
  {
    if op.SelectOperand? then DistinctSelect(op.query) else DistinctRow(OperandRow(row, op).fields)
  }

  /** `isNotDistinctFrom(operand)`: a `RowIsDistinctFrom` node with the flag true. */
  function IsNotDistinctFrom(row: Row, op: Operand): (r: Condition)
    requires DistinctOperandOk(row, op)
    ensures r.RowIsDistinctFrom? && r.left == row.fields && r.not
    ensures op.SelectOperand? <==> r.operand.DistinctSelect?
  {
    RowIsDistinctFrom(row.fields, DistinctOperandOf(row, op), true)
  }

  /** `isDistinctFrom(operand)`: a `RowIsDistinctFrom` node with the flag false. */
  function IsDistinctFrom(row: Row, op: Operand): (r: Condition)
    requires DistinctOperandOk(row, op)
    ensures r.RowIsDistinctFrom? && r.left == row.fields && !r.not
    ensures op.SelectOperand? <==> r.operand.DistinctSelect?
  {
    RowIsDistinctFrom(row.fields, DistinctOperandOf(row, op), false)
  }

  /** Without NULLs, IS NOT DISTINCT FROM is `=` and IS DISTINCT FROM is `<>`, and the two are complements. */
  lemma DistinctMeaning(row: Row, op: Operand, v: RowPredicates.Valuation)
    requires Degree(row) >= 1 && DistinctOperandOk(row, op) && RowValued(op)
    ensures RowPredicates.Evaluable(IsNotDistinctFrom(row, op)) && RowPredicates.Evaluable(IsDistinctFrom(row, op))
    ensures RowPredicates.Eval(IsNotDistinctFrom(row, op), v) == RowPredicates.Eval(Invoke(row, EqualMethod, op), v)
    ensures RowPredicates.Eval(IsDistinctFrom(row, op), v) == !RowPredicates.Eval(IsNotDistinctFrom(row, op), v)
  {
  }

  // ---------------------------------------------------------------------
  // [NOT] IN
  // ---------------------------------------------------------------------

  function FieldsOf(rows: seq<Row>): (r: seq<seq<Field>>)
    ensures |r| == |rows|
  {
    seq(|rows|, i requires 0 <= i < |rows| => rows[i].fields)
  }

  predicate SameDegree(row: Row, rows: seq<Row>)
  {
    forall i :: 0 <= i < |rows| ==> Degree(rows[i]) == Degree(row)
  }

  /** `in(rows…)` and `in(Collection)`: the candidates in order, not negated. */
  function InRows(row: Row, rows: seq<Row>): (r: Condition)
    ensures r.RowInCondition? && r.left == row.fields && !r.not
    ensures |r.rows| == |rows| && forall i :: 0 <= i < |rows| ==> r.rows[i] == rows[i].fields
  {
    RowInCondition(row.fields, FieldsOf(rows), false)
  }

  /** `notIn(rows…)` and `notIn(Collection)`: the same candidates, negated. */
  function NotInRows(row: Row, rows: seq<Row>): (r: Condition)
    ensures r.RowInCondition? && r.left == row.fields && r.not
    ensures r.rows == InRows(row, rows).rows
  {
    RowInCondition(row.fields, FieldsOf(rows), true)
  }

  predicate AllFit(row: Row, records: seq<RecordValue>)
  {
    forall i :: 0 <= i < |records| ==> WellFormed(records[i]) && |records[i].fields| == Degree(row)
  }

  /** The `valuesRow()` of each record, in order. */
  function ValuesRows(records: seq<RecordValue>): seq<Row>
    requires forall i :: 0 <= i < |records| ==> WellFormed(records[i])
  {
    seq(|records|, i requires 0 <= i < |records| => ValuesRow(records[i]))
  }

  /** The loop of `in(records…)`: collect each record's `valuesRow()` into a list. */
  method CollectValuesRows(records: seq<RecordValue>) returns (rows: seq<Row>)
    requires forall i :: 0 <= i < |records| ==> WellFormed(records[i])
    ensures rows == ValuesRows(records)
  {
    rows := [];
    for i := 0 to |records|
      invariant rows == ValuesRows(records[..i])
    {
      assert records[..i + 1] == records[..i] + [records[i]];
      rows := rows + [ValuesRow(records[i])];
    }
    assert records[..|records|] == records;
  }

  /** `in(records…)`: the records' value rows, in input order, not negated. */
  method InRecords(row: Row, records: seq<RecordValue>) returns (c: Condition)
    requires AllFit(row, records)
    ensures c == InRows(row, ValuesRows(records))
    ensures |c.rows| == |records| && !c.not
  {
    var rows := CollectValuesRows(records);
    c := RowInCondition(row.fields, FieldsOf(rows), false);
  }

  /** `notIn(records…)`: the same candidates as `in(records…)`, negated. */
  method NotInRecords(row: Row, records: seq<RecordValue>) returns (c: Condition)
    requires AllFit(row, records)
    ensures c == NotInRows(row, ValuesRows(records))
    ensures |c.rows| == |records| && c.not
  {
    var rows := CollectValuesRows(records);
    c := RowInCondition(row.fields, FieldsOf(rows), true);
  }

  /** Row IN and NOT IN over a list hold exactly when their documented emulations do. */
  lemma InMeansEmulation(row: Row, rows: seq<Row>, v: RowPredicates.Valuation)
    requires Degree(row) >= 1 && SameDegree(row, rows)
    ensures RowPredicates.Evaluable(InRows(row, rows)) && RowPredicates.Evaluable(NotInRows(row, rows))
    ensures RowPredicates.Eval(InRows(row, rows), v) ==
      RowPredicates.Eval(RowPredicates.InEmulation(row.fields, FieldsOf(rows)), v)
    ensures RowPredicates.Eval(NotInRows(row, rows), v) ==
      RowPredicates.Eval(RowPredicates.NotInEmulation(row.fields, FieldsOf(rows)), v)
  {
    RowPredicates.InEmulationEval(row.fields, FieldsOf(rows), v);
  }
}
