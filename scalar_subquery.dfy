/**
 * `ScalarSubquery`: a `SELECT` used as a column expression. HSQLDB cannot
 * take a WITH clause inside a scalar subquery, so there the query is
 * wrapped in a derived table.
 */
module ScalarSubquery {
  import opened Wrappers
  import opened Qom

  type ScalarSubqueryField = f: Field | f.ScalarSubqueryNode? witness ScalarSubqueryNode(SELECT_ONE, Inferred, false)

  /** `new ScalarSubquery(query, type, predicandSubquery)`. */
  function Make(query: Select, t: DataType, predicandSubquery: bool): ScalarSubqueryField
  {
    ScalarSubqueryNode(query, t, predicandSubquery)
  }

  /** `Tools.selectQueryImpl(query)`: the query when it is a `SelectQueryImpl`, else `null`. */
  function SelectQueryImpl(query: Select): (q: Option<Select>)
    ensures q.Some? <==> query.SelectQuery?
    ensures q.Some? ==> q.value == query
  {
    if query.SelectQuery? then Some(query) else None
  }

  /** `NO_SUPPORT_WITH_IN_SCALAR_SUBQUERY.contains(dialect)`. */
  predicate NoSupportWithInScalarSubquery(d: Dialect)
  {
    d == Hsqldb
  }

  /** `select(asterisk()).from(query.asTable("t"))`. */
  function Wrapped(query: Select): Select
  {
    SelectQuery(None, [AsteriskItem], [DerivedTable(query, "t")])
  }

  /**
   * The query `accept` hands to `visitSubquery`: on a dialect without WITH
   * in scalar subqueries it never carries a WITH clause of its own; on
   * every other dialect it is the query itself.
   */
  function RenderedQuery(s: ScalarSubqueryField, d: Dialect): (r: Select)
    ensures NoSupportWithInScalarSubquery(d) ==> !(r.SelectQuery? && r.with.Some?)
    ensures !NoSupportWithInScalarSubquery(d) ==> r == s.query
    ensures r == s.query || r == Wrapped(s.query)
  {
    var q := SelectQueryImpl(s.query);
    if q.Some? && q.value.with.Some? && NoSupportWithInScalarSubquery(d) then Wrapped(s.query) else s.query
  }

  /** `accept`: `visitSubquery(ctx, query', false, false, predicandSubquery)`. */
  function AcceptTokens(s: ScalarSubqueryField, d: Dialect): seq<Token>
  {
    [Visit(SubqueryPart(RenderedQuery(s, d), s.predicandSubquery))]
  }

  /**
   * The query is wrapped as `SELECT * FROM (query) AS t` exactly when it is a
   * `SelectQueryImpl` with a WITH clause and the dialect is HSQLDB; otherwise
   * it is rendered unchanged, also when it is no `SelectQueryImpl`. The
   * predicand flag is passed through in both cases.
   */
  lemma WrapOnlyWithOnHsqldb(s: ScalarSubqueryField, d: Dialect)
    ensures var wrap := s.query.SelectQuery? && s.query.with.Some? && d == Hsqldb;
      AcceptTokens(s, d) == [Visit(SubqueryPart(if wrap then Wrapped(s.query) else s.query, s.predicandSubquery))]
    ensures !s.query.SelectQuery? ==> RenderedQuery(s, d) == s.query
    ensures AcceptTokens(s, d)[0].part.predicandSubquery == s.predicandSubquery
  {
  }

  /** `Tools.scalarType(query)`: the type of the only selected field, else the inferred type. */
  function ScalarType(query: Select): DataType
  {
    if query.SelectQuery? && |query.select| == 1 && query.select[0].FieldItem? then FieldType(query.select[0].field)
    else Inferred
  }

  /** `$constructor()`. */
  function Construct(s: ScalarSubqueryField, query: Select): ScalarSubqueryField
  {
    Make(query, ScalarType(query), s.predicandSubquery)
  }

  /** `$arg1()`. */
  function Arg1(s: ScalarSubqueryField): Select
  {
    s.query
  }

  /** `$constructor` keeps the predicand flag, and `$arg1` of the result is the query it was given. */
  lemma ConstructorKeepsPredicand(s: ScalarSubqueryField, query: Select)
    ensures Arg1(Construct(s, query)) == query
    ensures Construct(s, query).predicandSubquery == s.predicandSubquery
    ensures s.dataType == ScalarType(s.query) ==> Construct(s, Arg1(s)) == s
  {
  }
}
