/**
 * The query object model shared by the modelled classes: dialects, names,
 * data types, values, column expressions, selects, conditions, and the
 * token stream that rendering appends to.
 */
module Qom {
  import opened Wrappers

  /**
   * SQL dialect families of the open-source distribution. Versions of a
   * family are collapsed into it, so `SQLDialect.family()` is the identity.
   */
  datatype Dialect =
    | Default | ClickHouse | Cubrid | Derby | DuckDB | Firebird | H2 | Hsqldb
    | Ignite | MariaDB | MySQL | Postgres | SQLite | Trino | YugabyteDB

  /** How an identifier is quoted when rendered. */
  datatype Quoting = DefaultQuoting | Quoted | Unquoted

  /** A possibly qualified SQL identifier. */
  datatype Name = Name(parts: seq<string>, quoting: Quoting)

  /** `DSL.name(String)`. */
  function DslName(s: string): Name
  {
    Name([s], DefaultQuoting)
  }

  /** `DSL.unquotedName(String)`. */
  function UnquotedName(s: string): Name
  {
    Name([s], Unquoted)
  }

  /** A SQL data type: a named type, or the type DSL.val infers from a Java value. */
  datatype DataType = SqlType(typeName: string) | Inferred

  const VARCHAR: DataType := SqlType("VARCHAR")
  const INTEGER: DataType := SqlType("INTEGER")

  /** A Java value passed to the DSL. */
  datatype Value = IntV(i: int) | StrV(s: string)

  datatype Schema = Schema(name: Name)

  datatype WindowDefinition = WindowDefinition(name: Name)

  /** Column expressions (`Field`), queries (`Select`) and what can appear in a select list. */
  datatype Field =
    | Column(name: Name, dataType: DataType)
    /** A bind value, `DSL.val` or `Tools.field(value, type)`; `None` is a Java `null`. */
    | Val(value: Option<Value>, dataType: DataType)
    /** The typed NULL that `Tools.nullSafe` substitutes for a `null` argument. */
    | NullOf(dataType: DataType)
    /** `DSL.inline(int)`. */
    | Inline(literal: int)
    /** `DSL.one()`. */
    | One
    /** `DSL.field(Select)`. */
    | SubqueryField(query: Select)
    /** `DSL.substring(string, startingPosition)`. */
    | SubstringNode(str: Field, startingPosition: Field)
    /** `POSITION`; `startIndex` is `None` when the two-argument constructor was used. */
    | PositionNode(inString: Field, search: Field, startIndex: Option<Field>)
    /** `DSL.case_(operand).when(when, result).else_(otherwise)`. */
    | CaseNode(operand: Field, when: Field, result: Field, otherwise: Field)
    /** `Internal.iadd(left, right)`. */
    | AddNode(left: Field, right: Field)
    /** `Internal.isub(left, right)`. */
    | SubNode(left: Field, right: Field)
    | UpperNode(str: Field)
    /** A plain function call `name(args…)`. */
    | FunctionNode(name: Name, dataType: DataType, applySchemaMapping: bool, args: seq<Field>)
    | ScalarSubqueryNode(query: Select, dataType: DataType, predicandSubquery: bool)

  datatype Select =
    /** A `SelectQueryImpl`; `with` is its WITH clause, if any. */
    | SelectQuery(with: Option<With>, select: seq<SelectItem>, from: seq<Table>)
    /** A `Select` that `Tools.selectQueryImpl` cannot unwrap to a `SelectQueryImpl`. */
    | OtherSelect(id: nat)

  /** The common table expressions of a WITH clause; their content is not modelled. */
  datatype With = With(id: nat)

  datatype Table =
    | NamedTable(name: Name)
    /** `query.asTable(alias)`. */
    | DerivedTable(query: Select, alias: string)

  /** An element of a SELECT list. */
  datatype SelectItem =
    | FieldItem(field: Field)
    | TableItem(table: Table)
    | RowItem(fields: seq<Field>)
    | AsteriskItem
    | QualifiedAsteriskItem(qualifier: Table)

  /** `DSL.select(one())`. */
  const SELECT_ONE: Select := SelectQuery(None, [FieldItem(One)], [])

  /** The SQL data type of a column expression, as far as this model records it. */
  function FieldType(f: Field): DataType
  {
    match f
    case Column(_, t) => t
    case Val(_, t) => t
    case NullOf(t) => t
    case Inline(_) => INTEGER
    case One => INTEGER
    case SubqueryField(_) => Inferred
    case SubstringNode(_, _) => VARCHAR
    case PositionNode(_, _, _) => INTEGER
    case CaseNode(_, _, t, _) => FieldType(t)
    case AddNode(l, _) => FieldType(l)
    case SubNode(l, _) => FieldType(l)
    case UpperNode(_) => VARCHAR
    case FunctionNode(_, t, _, _) => t
    case ScalarSubqueryNode(_, t, _) => t
  }

  /** `Tools.nullSafe(field, type)`: a `null` field argument becomes a typed NULL. */
  function NullSafe(f: Option<Field>, t: DataType): (r: Field)
    ensures f.Some? ==> r == f.value
    ensures f.None? ==> r == NullOf(t)
  {
    if f.Some? then f.value else NullOf(t)
  }

  datatype SortOrder = DefaultOrder | Asc | Desc

  datatype SortField = SortField(field: Field, order: SortOrder)

  /** `field.sortDefault()`. */
  function SortDefault(f: Field): SortField
  {
    SortField(f, DefaultOrder)
  }

  datatype Comparator =
    | Equals | NotEquals | Less | LessOrEqual | Greater | GreaterOrEqual
    | In | NotIn | IsDistinctFrom | IsNotDistinctFrom | Like | NotLike

  datatype Quantifier = All | Any

  /** The right-hand side of a row-versus-subquery comparison. */
  datatype Subquery = PlainSelect(query: Select) | QuantifiedSelect(quantifier: Quantifier, query: Select)

  /** The right-hand side of a row `IS [NOT] DISTINCT FROM`. */
  datatype DistinctOperand = DistinctRow(fields: seq<Field>) | DistinctSelect(query: Select)

  /** Conditions (`Condition`): scalar building blocks and the row condition nodes. */
  datatype Condition =
    /** `DSL.noCondition()`. */
    | NoCondition
    | TrueCondition
    | FalseCondition
    /** `lhs.compare(comparator, rhs)` on two column expressions, e.g. `lhs.eq(rhs)`. */
    | CompareCondition(lhs: Field, comparator: Comparator, rhs: Field)
    | AndCondition(l: Condition, r: Condition)
    | OrCondition(l: Condition, r: Condition)
    | NotCondition(c: Condition)
    /** `RowCondition(left, right, comparator)`. */
    | RowCondition(left: seq<Field>, right: seq<Field>, comparator: Comparator)
    /** `RowSubqueryCondition(left, subquery, comparator)`. */
    | RowSubqueryCondition(left: seq<Field>, subquery: Subquery, comparator: Comparator)
    /** A completed `RowBetweenCondition(left, min, not, symmetric).and(max)`. */
    | RowBetweenCondition(left: seq<Field>, min: seq<Field>, max: seq<Field>, not: bool, symmetric: bool)
    /** `RowIsDistinctFrom(left, right, not)`. */
    | RowIsDistinctFrom(left: seq<Field>, operand: DistinctOperand, not: bool)
    /** `RowInCondition(left, rows, not)`. */
    | RowInCondition(left: seq<Field>, rows: seq<seq<Field>>, not: bool)

  /** The parameter rendering mode of a context (`ParamType`). */
  datatype ParamType = Indexed | ForceIndexed | Named | NamedOrInlined | Inlined

  /** A query part handed to `Context.visit`; its own rendering is not part of this model. */
  datatype Part =
    | FieldPart(field: Field)
    | FieldListPart(fields: seq<Field>)
    | SortFieldListPart(sortFields: seq<SortField>)
    | WindowDefinitionPart(definition: WindowDefinition)
    | NamePart(name: Name)
    /** `ctx.qualify(false, c -> c.visit(name))`: a name rendered without its qualifier. */
    | UnqualifiedNamePart(name: Name)
    | SchemaPart(schema: Schema)
    | ConditionPart(condition: Condition)
    /** A subquery in parentheses, with `visitSubquery`'s predicand flag. */
    | SubqueryPart(query: Select, predicandSubquery: bool)
    | AsteriskPart
    /** A table's fields spelled out in a select list (`tf()`). */
    | TableFieldsPart(table: Table)
    /** A row's fields spelled out in a select list (`rf()`). */
    | RowFieldsPart(fields: seq<Field>)
    | SelectItemPart(item: SelectItem)

  /** The SQL keywords (`Keywords.K_…`) that the modelled classes render. */
  datatype Keyword =
    | K_ADD | K_ALTER | K_AND | K_BETWEEN | K_CURRENT_ROW | K_EXCLUDE | K_FOLLOWING
    | K_GROUP | K_GROUPS | K_IN | K_NO_OTHERS | K_ORDER_BY | K_PARTITION_BY | K_PRECEDING
    | K_RANGE | K_RENAME | K_RENAME_TO | K_ROW | K_ROWS | K_SCHEMA | K_SET | K_TIES
    | K_TO | K_TYPE | K_UNBOUNDED_FOLLOWING | K_UNBOUNDED_PRECEDING | K_VALUE

  /** One step of a rendering context's output. */
  datatype Token =
    /** `ctx.visit(K_…)`. */
    | Kw(keyword: Keyword)
    /** `ctx.sql(text)`: literal SQL text. */
    | Sql(text: string)
    /** `ctx.sql(int)`: the decimal text of a Java `int`. */
    | SqlInt(number: int)
    | Visit(part: Part)
    /** `ctx.visit(value)` of a bind value under the context's current `ParamType`. */
    | Param(value: Field, paramType: ParamType)
    | FormatIndentStart
    | FormatIndentEnd
    | FormatNewLine
    | FormatSeparator
    /** `ctx.separatorRequired(true)`. */
    | SeparatorRequired
}
