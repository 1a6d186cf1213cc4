/**
 * `WindowSpecificationImpl`: the builder for the `OVER (…)` clause of a
 * window function and its rendering. The frame bounds are stored as
 * signed Java `int`s: `Integer.MIN_VALUE` and `Integer.MAX_VALUE` stand
 * for UNBOUNDED PRECEDING / FOLLOWING, a negative value for n PRECEDING,
 * a positive one for n FOLLOWING and zero for CURRENT ROW.
 */
module WindowSpecification {
  import opened Wrappers
  import opened JavaInt
  import opened Qom
  import opened Rendering

  datatype FrameUnits = Rows | Range | Groups

  /** `FrameUnits.keyword`. */
  function UnitsKeyword(u: FrameUnits): Keyword
  {
    match u
    case Rows => K_ROWS
    case Range => K_RANGE
    case Groups => K_GROUPS
  }

  datatype FrameExclude = ExcludeCurrentRow | ExcludeGroup | ExcludeTies | ExcludeNoOthers

  /** `FrameExclude.keyword`. */
  function ExcludeKeyword(e: FrameExclude): Keyword
  {
    match e
    case ExcludeCurrentRow => K_CURRENT_ROW
    case ExcludeGroup => K_GROUP
    case ExcludeTies => K_TIES
    case ExcludeNoOthers => K_NO_OTHERS
  }

  /** The frame bound a builder call names, before it is encoded. */
  datatype FrameBound =
    | UnboundedPreceding
    | Preceding(n: int32)
    | CurrentRow
    | UnboundedFollowing
    | Following(n: int32)

  /**
   * The `int` a builder call stores for a bound: `xPreceding(n)` stores
   * `-n` with Java's wrap-around, so `-Integer.MIN_VALUE` is `Integer.MIN_VALUE`.
   */
  function Encode(b: FrameBound): int32
  {
    match b
    case UnboundedPreceding => INT_MIN
    case Preceding(n) => Wrap32(-(n as int))
    case CurrentRow => 0
    case UnboundedFollowing => INT_MAX
    case Following(n) => n
  }

  /** The window functions `accept` distinguishes (`ctx.data(DATA_WINDOW_FUNCTION)`). */
  datatype WindowFunction = Ntile | Lead | Lag | Rank | DenseRank | PercentRank | CumeDist | OtherWindowFunction

  const OMIT_PARTITION_BY_ONE: set<Dialect> := {Cubrid, MySQL, SQLite}
  const REQUIRES_ORDER_BY_IN_LEAD_LAG: set<Dialect> := {H2, MariaDB}
  const REQUIRES_ORDER_BY_IN_NTILE: set<Dialect> := {H2}
  const REQUIRES_ORDER_BY_IN_RANK_DENSE_RANK: set<Dialect> := {H2, MariaDB}
  const REQUIRES_ORDER_BY_IN_PERCENT_RANK_CUME_DIST: set<Dialect> := {MariaDB}

  /** The abstract state of a window specification. */
  datatype WindowState = WindowState(
    windowDefinition: Option<WindowDefinition>,
    partitionBy: seq<Field>,
    orderBy: seq<SortField>,
    frameStart: Option<int32>,
    frameEnd: Option<int32>,
    frameUnits: Option<FrameUnits>,
    exclude: Option<FrameExclude>,
    partitionByOne: bool)

  /** What every builder call keeps: a frame start always comes with its units, and `partitionByOne` adds to the list. */
  predicate ValidState(s: WindowState)
  {
    (s.frameStart.Some? ==> s.frameUnits.Some?) && (s.partitionByOne ==> |s.partitionBy| > 0)
  }

  /** Whether the window function `w` needs an ORDER BY clause on dialect `d`. */
  predicate RequiresOrderBy(w: Option<WindowFunction>, d: Dialect)
  {
    || (w == Some(Ntile) && d in REQUIRES_ORDER_BY_IN_NTILE)
    || (w == Some(Lead) && d in REQUIRES_ORDER_BY_IN_LEAD_LAG)
    || (w == Some(Lag) && d in REQUIRES_ORDER_BY_IN_LEAD_LAG)
    || (w == Some(Rank) && d in REQUIRES_ORDER_BY_IN_RANK_DENSE_RANK)
    || (w == Some(DenseRank) && d in REQUIRES_ORDER_BY_IN_RANK_DENSE_RANK)
    || (w == Some(PercentRank) && d in REQUIRES_ORDER_BY_IN_PERCENT_RANK_CUME_DIST)
    || (w == Some(CumeDist) && d in REQUIRES_ORDER_BY_IN_PERCENT_RANK_CUME_DIST)
  }

  /** The sort specification injected when an ORDER BY is required: `field(select(one())).sortDefault()`. */
  const IMPLICIT_ORDER: SortField := SortDefault(SubqueryField(SELECT_ONE))

  /** The order list `accept` renders. */
  function EffectiveOrderBy(orderBy: seq<SortField>, d: Dialect, w: Option<WindowFunction>): (o: seq<SortField>)
    ensures |orderBy| > 0 ==> o == orderBy
    ensures |orderBy| == 0 ==> (o == [IMPLICIT_ORDER] <==> RequiresOrderBy(w, d))
    ensures |orderBy| == 0 ==> (o == [] <==> !RequiresOrderBy(w, d))
  {
    if |orderBy| == 0 && RequiresOrderBy(w, d) then [IMPLICIT_ORDER] else orderBy
  }

  function B2I(b: bool): nat
  {
    if b then 1 else 0
  }

  /** How many of window definition, PARTITION BY, ORDER BY and frame are present. */
  function ClauseCount(s: WindowState, o: seq<SortField>): nat
  {
    B2I(s.windowDefinition.Some?) + B2I(|s.partitionBy| > 0) + B2I(|o| > 0) + B2I(s.frameStart.Some?)
  }

  /** `toSQLRows`: one encoded bound. */
  function RowsTokens(rows: int32): (r: seq<Token>)
    ensures 1 <= |r| <= 3
    ensures forall t :: t in r ==> t.SqlInt? || t == Sql(" ") || t.Kw?
    ensures Kw(K_BETWEEN) !in r && Kw(K_AND) !in r && Kw(K_EXCLUDE) !in r
    ensures Kw(K_PARTITION_BY) !in r && Kw(K_ORDER_BY) !in r
  {
    if rows == INT_MIN then [Kw(K_UNBOUNDED_PRECEDING)]
    else if rows == INT_MAX then [Kw(K_UNBOUNDED_FOLLOWING)]
    else if rows < 0 then [SqlInt(-(rows as int)), Sql(" "), Kw(K_PRECEDING)]
    else if rows > 0 then [SqlInt(rows), Sql(" "), Kw(K_FOLLOWING)]
    else [Kw(K_CURRENT_ROW)]
  }

  /**
   * `toSQLRows` distinguishes five disjoint cases that together cover
   * every `int`: each output shape occurs for exactly one range of values.
   */
  lemma RowsTokensCases(rows: int32)
    ensures var r := RowsTokens(rows);
      && (rows == INT_MIN <==> r == [Kw(K_UNBOUNDED_PRECEDING)])
      && (rows == INT_MAX <==> r == [Kw(K_UNBOUNDED_FOLLOWING)])
      && (rows == 0 <==> r == [Kw(K_CURRENT_ROW)])
      && (INT_MIN < rows < 0 <==> r == [SqlInt(-(rows as int)), Sql(" "), Kw(K_PRECEDING)])
      && (0 < rows < INT_MAX <==> r == [SqlInt(rows), Sql(" "), Kw(K_FOLLOWING)])
  {
  }

  /** What the user asked for with a bound, independently of its encoding. */
  function BoundTokens(b: FrameBound): seq<Token>
  {
    match b
    case UnboundedPreceding => [Kw(K_UNBOUNDED_PRECEDING)]
    case Preceding(n) => [SqlInt(n), Sql(" "), Kw(K_PRECEDING)]
    case CurrentRow => [Kw(K_CURRENT_ROW)]
    case UnboundedFollowing => [Kw(K_UNBOUNDED_FOLLOWING)]
    case Following(n) => [SqlInt(n), Sql(" "), Kw(K_FOLLOWING)]
  }

  /** A bound whose count, if it has one, is strictly between 0 and `Integer.MAX_VALUE`. */
  predicate Representable(b: FrameBound)
  {
    (b.Preceding? || b.Following?) ==> 0 < b.n < INT_MAX
  }

  function IndentOpen(indent: bool): seq<Token>
  {
    if indent then [FormatIndentStart, FormatNewLine] else []
  }

  function IndentClose(indent: bool): seq<Token>
  {
    if indent then [FormatIndentEnd, FormatNewLine] else []
  }

  function WindowDefinitionTokens(s: WindowState): seq<Token>
  {
    if s.windowDefinition.Some? then [Visit(WindowDefinitionPart(s.windowDefinition.value))] else []
  }

  function PartitionTokens(s: WindowState, d: Dialect): seq<Token>
  {
    if |s.partitionBy| == 0 || (s.partitionByOne && d in OMIT_PARTITION_BY_ONE) then []
    else
      (if s.windowDefinition.Some? then [FormatSeparator] else [])
      + [Kw(K_PARTITION_BY), SeparatorRequired, Visit(FieldListPart(s.partitionBy))]
  }

  function OrderTokens(s: WindowState, o: seq<SortField>): seq<Token>
  {
    if |o| == 0 then []
    else
      (if s.windowDefinition.Some? || |s.partitionBy| > 0 then [FormatSeparator] else [])
      + [Kw(K_ORDER_BY), SeparatorRequired, Visit(SortFieldListPart(o))]
  }

  function ExcludeTokens(s: WindowState): seq<Token>
  {
    if s.exclude.Some? then [Sql(" "), Kw(K_EXCLUDE), Sql(" "), Kw(ExcludeKeyword(s.exclude.value))] else []
  }

  /** The frame clause: `UNITS s` or `UNITS BETWEEN s AND e`, then the exclusion. */
  function FrameTokens(s: WindowState, o: seq<SortField>): seq<Token>
    requires ValidState(s)
  {
    if s.frameStart.None? then []
    else
      (if s.windowDefinition.Some? || |s.partitionBy| > 0 || |o| > 0 then [FormatSeparator] else [])
      + [Kw(UnitsKeyword(s.frameUnits.value)), Sql(" ")]
      + BoundsTokens(s.frameStart.value, s.frameEnd)
      + ExcludeTokens(s)
  }

  /** `s` alone, or `BETWEEN s AND e` when an end bound is set. */
  function BoundsTokens(start: int32, end: Option<int32>): (r: seq<Token>)
    ensures FormatIndentStart !in r && FormatIndentEnd !in r
    ensures Kw(K_EXCLUDE) !in r && Kw(K_PARTITION_BY) !in r && Kw(K_ORDER_BY) !in r
    ensures Kw(K_BETWEEN) in r <==> end.Some?
    ensures Kw(K_AND) in r <==> end.Some?
  {
    if end.Some? then
      [Kw(K_BETWEEN), Sql(" ")] + RowsTokens(start) + [Sql(" "), Kw(K_AND), Sql(" ")] + RowsTokens(end.value)
    else RowsTokens(start)
  }

  /** The clauses for state `s` on dialect `d` with the order list `o` that is rendered. */
  function ClausesTokens(s: WindowState, d: Dialect, o: seq<SortField>): seq<Token>
    requires ValidState(s)
  {
    var indent := ClauseCount(s, o) > 1;
    IndentOpen(indent) + WindowDefinitionTokens(s) + PartitionTokens(s, d) + OrderTokens(s, o)
    + FrameTokens(s, o) + IndentClose(indent)
  }

  /**
   * Everything `accept` emits for state `s` on dialect `d` inside window
   * function `w`. It is empty exactly when no clause is rendered: no window
   * name, no PARTITION BY (or only a dropped `PARTITION BY 1`), no ORDER
   * BY given or needed, and no frame.
   */
  function AcceptTokens(s: WindowState, d: Dialect, w: Option<WindowFunction>): (r: seq<Token>)
    requires ValidState(s)
    ensures r == [] <==>
      (&& s.windowDefinition.None? && s.frameStart.None?
       && (|s.partitionBy| == 0 || (s.partitionByOne && d in OMIT_PARTITION_BY_ONE))
       && |s.orderBy| == 0 && !RequiresOrderBy(w, d))
  {
    ClausesTokens(s, d, EffectiveOrderBy(s.orderBy, d, w))
  }

  // ---------------------------------------------------------------------
  // Properties of the rendering
  // ---------------------------------------------------------------------

  /** A bound a builder call stores renders back as the bound that was asked for. */
  lemma RenderEncodedBound(b: FrameBound)
    requires Representable(b)
    ensures RowsTokens(Encode(b)) == BoundTokens(b)
  {
    if b.Preceding? {
      assert Encode(b) == -b.n;
      assert -Encode(b) == b.n;
    }
  }

  /**
   * The sentinels collide with counts at the edge of the `int` range:
   * `xFollowing(Integer.MAX_VALUE)` renders UNBOUNDED FOLLOWING,
   * `xPreceding(Integer.MIN_VALUE)` renders UNBOUNDED PRECEDING, and a
   * negative count to `xPreceding` renders as FOLLOWING.
   */
  lemma SentinelCollisions(k: int32)
    ensures RowsTokens(Encode(Following(INT_MAX))) == [Kw(K_UNBOUNDED_FOLLOWING)]
    ensures RowsTokens(Encode(Preceding(INT_MIN))) == [Kw(K_UNBOUNDED_PRECEDING)]
    ensures INT_MIN + 1 < k < 0 ==> RowsTokens(Encode(Preceding(k))) == [SqlInt(-(k as int)), Sql(" "), Kw(K_FOLLOWING)]
  {
    assert Encode(Preceding(INT_MIN)) == INT_MIN;
    if INT_MIN + 1 < k < 0 {
      assert Encode(Preceding(k)) == -k;
    }
  }

  /** The clauses are the indentation around the four clause renderings. */
  lemma ClausesTokensShape(s: WindowState, d: Dialect, o: seq<SortField>)
    requires ValidState(s)
    ensures var indent := ClauseCount(s, o) > 1;
      ClausesTokens(s, d, o) == IndentOpen(indent) + (WindowDefinitionTokens(s) + PartitionTokens(s, d) + OrderTokens(s, o) + FrameTokens(s, o)) + IndentClose(indent)
  {
  }

  lemma BodyIndentFree(s: WindowState, d: Dialect, o: seq<SortField>)
    requires ValidState(s)
    ensures var body := WindowDefinitionTokens(s) + PartitionTokens(s, d) + OrderTokens(s, o) + FrameTokens(s, o);
      FormatIndentStart !in body && FormatIndentEnd !in body
  {
    var a, b, c, e := WindowDefinitionTokens(s), PartitionTokens(s, d), OrderTokens(s, o), FrameTokens(s, o);
    assert FormatIndentStart !in a && FormatIndentEnd !in a;
    assert FormatIndentStart !in b && FormatIndentEnd !in b;
    assert FormatIndentStart !in c && FormatIndentEnd !in c;
    assert FormatIndentStart !in e && FormatIndentEnd !in e;
  }

  lemma ClausesIndent(s: WindowState, d: Dialect, o: seq<SortField>)
    requires ValidState(s)
    ensures var t := ClausesTokens(s, d, o);
      && (FormatIndentStart in t <==> ClauseCount(s, o) >= 2)
      && (FormatIndentEnd in t <==> ClauseCount(s, o) >= 2)
  {
    var indent := ClauseCount(s, o) > 1;
    var body := WindowDefinitionTokens(s) + PartitionTokens(s, d) + OrderTokens(s, o) + FrameTokens(s, o);
    ClausesTokensShape(s, d, o);
    BodyIndentFree(s, d, o);
    assert ClausesTokens(s, d, o) == IndentOpen(indent) + body + IndentClose(indent);
  }

  /** Indentation is opened and closed iff at least two clauses are present. */
  lemma IndentIffSeveralClauses(s: WindowState, d: Dialect, w: Option<WindowFunction>)
    requires ValidState(s)
    ensures var t := AcceptTokens(s, d, w);
      && (FormatIndentStart in t <==> ClauseCount(s, EffectiveOrderBy(s.orderBy, d, w)) >= 2)
      && (FormatIndentEnd in t <==> ClauseCount(s, EffectiveOrderBy(s.orderBy, d, w)) >= 2)
  {
    ClausesIndent(s, d, EffectiveOrderBy(s.orderBy, d, w));
  }

  lemma PartitionPieceFacts(s: WindowState, d: Dialect)
    ensures var b := PartitionTokens(s, d);
      && (Kw(K_PARTITION_BY) in b <==> |s.partitionBy| > 0 && !(s.partitionByOne && d in OMIT_PARTITION_BY_ONE))
      && Kw(K_ORDER_BY) !in b && Kw(K_BETWEEN) !in b && Kw(K_AND) !in b && Kw(K_EXCLUDE) !in b
  {
  }

  lemma OrderPieceFacts(s: WindowState, o: seq<SortField>)
    ensures var c := OrderTokens(s, o);
      && (Kw(K_ORDER_BY) in c <==> |o| > 0)
      && Kw(K_PARTITION_BY) !in c && Kw(K_BETWEEN) !in c && Kw(K_AND) !in c && Kw(K_EXCLUDE) !in c
  {
  }

  lemma FramePieceFacts(s: WindowState, o: seq<SortField>)
    requires ValidState(s)
    ensures var e := FrameTokens(s, o);
      && Kw(K_PARTITION_BY) !in e && Kw(K_ORDER_BY) !in e
      && (Kw(K_BETWEEN) in e <==> s.frameStart.Some? && s.frameEnd.Some?)
      && (Kw(K_AND) in e <==> s.frameStart.Some? && s.frameEnd.Some?)
      && (Kw(K_EXCLUDE) in e <==> s.frameStart.Some? && s.exclude.Some?)
  {
    if s.frameStart.Some? {
      var sep := if s.windowDefinition.Some? || |s.partitionBy| > 0 || |o| > 0 then [FormatSeparator] else [];
      var units := [Kw(UnitsKeyword(s.frameUnits.value)), Sql(" ")];
      var mid := BoundsTokens(s.frameStart.value, s.frameEnd);
      var ex := ExcludeTokens(s);
      assert FrameTokens(s, o) == sep + units + mid + ex;
      assert Kw(K_BETWEEN) !in sep + units + ex && Kw(K_AND) !in sep + units + ex;
      assert Kw(K_EXCLUDE) !in sep + units + mid;
      assert Kw(K_PARTITION_BY) !in sep + units + ex && Kw(K_ORDER_BY) !in sep + units + ex;
    }
  }

  lemma ClausesFrame(s: WindowState, d: Dialect, o: seq<SortField>)
    requires ValidState(s)
    ensures var t := ClausesTokens(s, d, o);
      && (Kw(K_BETWEEN) in t <==> s.frameStart.Some? && s.frameEnd.Some?)
      && (Kw(K_AND) in t <==> s.frameStart.Some? && s.frameEnd.Some?)
      && (Kw(K_EXCLUDE) in t <==> s.frameStart.Some? && s.exclude.Some?)
  {
    var indent := ClauseCount(s, o) > 1;
    PartitionPieceFacts(s, d);
    OrderPieceFacts(s, o);
    FramePieceFacts(s, o);
    var a, b, c, e := WindowDefinitionTokens(s), PartitionTokens(s, d), OrderTokens(s, o), FrameTokens(s, o);
    var rest := IndentOpen(indent) + a + b + c;
    assert Kw(K_BETWEEN) !in rest && Kw(K_AND) !in rest && Kw(K_EXCLUDE) !in rest;
  }

  /**
   * A frame is rendered iff `frameStart` is set: `frameEnd` alone is
   * ignored, the BETWEEN … AND form appears iff `frameEnd` is set too, and
   * EXCLUDE appears iff a frame is rendered and an exclusion is set.
   */
  lemma FrameRendering(s: WindowState, d: Dialect, w: Option<WindowFunction>)
    requires ValidState(s)
    ensures var t := AcceptTokens(s, d, w);
      && (Kw(K_BETWEEN) in t <==> s.frameStart.Some? && s.frameEnd.Some?)
      && (Kw(K_AND) in t <==> s.frameStart.Some? && s.frameEnd.Some?)
      && (Kw(K_EXCLUDE) in t <==> s.frameStart.Some? && s.exclude.Some?)
  {
    ClausesFrame(s, d, EffectiveOrderBy(s.orderBy, d, w));
  }

  /**
   * The frame clause: a separator iff an earlier clause is present, the
   * units, then the bound or BETWEEN bounds, then the exclusion.
   */
  lemma FrameShape(s: WindowState, o: seq<SortField>)
    requires ValidState(s) && s.frameStart.Some?
    ensures FrameTokens(s, o) == (if ClauseCount(s, o) > 1 then [FormatSeparator] else [])
        + [Kw(UnitsKeyword(s.frameUnits.value)), Sql(" ")] + BoundsTokens(s.frameStart.value, s.frameEnd) + ExcludeTokens(s)
  {
    var sep := if s.windowDefinition.Some? || |s.partitionBy| > 0 || |o| > 0 then [FormatSeparator] else [];
    var units := [Kw(UnitsKeyword(s.frameUnits.value)), Sql(" ")];
    var mid := BoundsTokens(s.frameStart.value, s.frameEnd);
    assert FrameTokens(s, o) == sep + units + mid + ExcludeTokens(s);
  }

  /** The last k tokens of a middle piece stay last but for the closing piece. */
  lemma SuffixOfMiddle(pre: seq<Token>, x: seq<Token>, c: seq<Token>, k: nat)
    requires |x| >= k
    ensures |pre + x + c| >= k + |c| && (pre + x + c)[|pre + x + c| - k - |c|..] == x[|x| - k..] + c
  {
    assert (pre + x + c)[|pre| + |x| - k..] == x[|x| - k..] + c;
  }

  /** A frame with an exclusion ends with it. */
  lemma FrameEndsWithExclude(s: WindowState, o: seq<SortField>)
    requires ValidState(s) && s.frameStart.Some? && s.exclude.Some?
    ensures var f := FrameTokens(s, o);
      |f| >= 4 && f[|f| - 4..] == [Sql(" "), Kw(K_EXCLUDE), Sql(" "), Kw(ExcludeKeyword(s.exclude.value))]
  {
    var sep: seq<Token> := if s.windowDefinition.Some? || |s.partitionBy| > 0 || |o| > 0 then [FormatSeparator] else [];
    var body := sep + [Kw(UnitsKeyword(s.frameUnits.value)), Sql(" ")] + BoundsTokens(s.frameStart.value, s.frameEnd);
    var ex := ExcludeTokens(s);
    assert FrameTokens(s, o) == body + ex;
    assert (body + ex)[|body + ex| - 4..] == ex;
  }

  /** The exclusion comes last in `accept`'s output, apart from closing the indentation. */
  lemma ExcludeComesLast(s: WindowState, d: Dialect, o: seq<SortField>)
    requires ValidState(s) && s.frameStart.Some? && s.exclude.Some?
    ensures var t, c := ClausesTokens(s, d, o), IndentClose(ClauseCount(s, o) > 1);
      |t| >= 4 + |c| &&
      t[|t| - 4 - |c|..] == [Sql(" "), Kw(K_EXCLUDE), Sql(" "), Kw(ExcludeKeyword(s.exclude.value))] + c
  {
    var indent := ClauseCount(s, o) > 1;
    var head := IndentOpen(indent) + WindowDefinitionTokens(s) + PartitionTokens(s, d) + OrderTokens(s, o);
    var f := FrameTokens(s, o);
    assert ClausesTokens(s, d, o) == head + f + IndentClose(indent);
    FrameEndsWithExclude(s, o);
    SuffixOfMiddle(head, f, IndentClose(indent), 4);
  }

  lemma ClausesPartition(s: WindowState, d: Dialect, o: seq<SortField>)
    requires ValidState(s)
    ensures Kw(K_PARTITION_BY) in ClausesTokens(s, d, o)
        <==> |s.partitionBy| > 0 && !(s.partitionByOne && d in OMIT_PARTITION_BY_ONE)
  {
    var indent := ClauseCount(s, o) > 1;
    PartitionPieceFacts(s, d);
    OrderPieceFacts(s, o);
    FramePieceFacts(s, o);
    var a, b, c, e := WindowDefinitionTokens(s), PartitionTokens(s, d), OrderTokens(s, o), FrameTokens(s, o);
    assert Kw(K_PARTITION_BY) !in IndentOpen(indent) + a && Kw(K_PARTITION_BY) !in IndentClose(indent);
  }

  /**
   * PARTITION BY is rendered iff the list is non-empty and it is not a
   * `partitionByOne()` list on a dialect that omits it.
   */
  lemma PartitionByRendering(s: WindowState, d: Dialect, w: Option<WindowFunction>)
    requires ValidState(s)
    ensures Kw(K_PARTITION_BY) in AcceptTokens(s, d, w)
        <==> |s.partitionBy| > 0 && !(s.partitionByOne && d in OMIT_PARTITION_BY_ONE)
  {
    ClausesPartition(s, d, EffectiveOrderBy(s.orderBy, d, w));
  }

  /**
   * When a `partitionByOne()` list is omitted, the ORDER BY clause that
   * follows is still preceded by a separator, as if it had been rendered.
   */
  lemma OmittedPartitionKeepsSeparator(s: WindowState, o: seq<SortField>)
    requires s.partitionByOne && |s.partitionBy| > 0 && |o| > 0
    ensures OrderTokens(s, o)[0] == FormatSeparator
  {
  }

  lemma ClausesOrder(s: WindowState, d: Dialect, o: seq<SortField>)
    requires ValidState(s)
    ensures Kw(K_ORDER_BY) in ClausesTokens(s, d, o) <==> |o| > 0
  {
    var indent := ClauseCount(s, o) > 1;
    PartitionPieceFacts(s, d);
    OrderPieceFacts(s, o);
    FramePieceFacts(s, o);
    var a, b, c, e := WindowDefinitionTokens(s), PartitionTokens(s, d), OrderTokens(s, o), FrameTokens(s, o);
    assert Kw(K_ORDER_BY) !in IndentOpen(indent) + a && Kw(K_ORDER_BY) !in IndentClose(indent);
  }

  /**
   * ORDER BY is rendered iff the order list is non-empty or the window
   * function needs one on this dialect, in which case `(SELECT 1)` is
   * the injected sort key.
   */
  lemma OrderByRendering(s: WindowState, d: Dialect, w: Option<WindowFunction>)
    requires ValidState(s)
    ensures Kw(K_ORDER_BY) in AcceptTokens(s, d, w) <==> |s.orderBy| > 0 || RequiresOrderBy(w, d)
  {
    ClausesOrder(s, d, EffectiveOrderBy(s.orderBy, d, w));
  }

  /** The pairs of window function and dialect that need an ORDER BY are exactly these. */
  lemma RequiresOrderByCases(w: Option<WindowFunction>, d: Dialect)
    ensures RequiresOrderBy(w, d) <==>
      || (w == Some(Ntile) && d == H2)
      || ((w == Some(Lead) || w == Some(Lag)) && (d == H2 || d == MariaDB))
      || ((w == Some(Rank) || w == Some(DenseRank)) && (d == H2 || d == MariaDB))
      || ((w == Some(PercentRank) || w == Some(CumeDist)) && d == MariaDB)
  {
  }

  // ---------------------------------------------------------------------
  // The builder
  // ---------------------------------------------------------------------

  class WindowSpecificationImpl {
    const windowDefinition: Option<WindowDefinition>
    var partitionBy: seq<Field>
    var orderBy: seq<SortField>
    var frameStart: Option<int32>
    var frameEnd: Option<int32>
    var frameUnits: Option<FrameUnits>
    var exclude: Option<FrameExclude>
    var partitionByOne: bool

    function State(): WindowState
      reads this
    {
      WindowState(windowDefinition, partitionBy, orderBy, frameStart, frameEnd, frameUnits, exclude, partitionByOne)
    }

    predicate Valid()
      reads this
    {
      ValidState(State())
    }

    /** Both constructors: `new WindowSpecificationImpl()` passes no window definition. */
    constructor (windowDefinition: Option<WindowDefinition>)
      ensures Valid()
      ensures State() == WindowState(windowDefinition, [], [], None, None, None, None, false)
    {
      this.windowDefinition := windowDefinition;
      partitionBy := [];
      orderBy := [];
      frameStart := None;
      frameEnd := None;
      frameUnits := None;
      exclude := None;
      partitionByOne := false;
    }

    /** `copy()`: a new specification with the same definition and copies of the lists, bounds and flags. */
    method Copy() returns (c: WindowSpecificationImpl)
      requires Valid()
      ensures fresh(c) && c.Valid() && c.State() == State()
    {
      c := new WindowSpecificationImpl(windowDefinition);
      c.partitionBy := c.partitionBy + partitionBy;
      c.orderBy := c.orderBy + orderBy;
      c.frameStart := frameStart;
      c.frameEnd := frameEnd;
      c.frameUnits := frameUnits;
      c.exclude := exclude;
      c.partitionByOne := partitionByOne;
    }

    /** `partitionBy(fields…)`: appends to the PARTITION BY list. */
    method PartitionBy(fields: seq<Field>) returns (r: WindowSpecificationImpl)
      requires Valid()
      modifies this
      ensures Valid() && r == this
      ensures State() == old(State()).(partitionBy := old(partitionBy) + fields)
    {
      partitionBy := partitionBy + fields;
      r := this;
    }

    /** `partitionByOne()`: sets the flag and appends the constant 1. */
    method PartitionByOne() returns (r: WindowSpecificationImpl)
      requires Valid()
      modifies this
      ensures Valid() && r == this
      ensures State() == old(State()).(partitionBy := old(partitionBy) + [One], partitionByOne := true)
    {
      partitionByOne := true;
      partitionBy := partitionBy + [One];
      r := this;
    }

    /** `orderBy(fields…)`: appends to the ORDER BY list. */
    method OrderBy(fields: seq<SortField>) returns (r: WindowSpecificationImpl)
      requires Valid()
      modifies this
      ensures Valid() && r == this
      ensures State() == old(State()).(orderBy := old(orderBy) + fields)
    {
      orderBy := orderBy + fields;
      r := this;
    }

    /**
     * The fifteen start-bound setters `rowsX`, `rangeX` and `groupsX`:
     * they set the units and the encoded start bound and nothing else.
     */
    method Frame(units: FrameUnits, bound: FrameBound) returns (r: WindowSpecificationImpl)
      requires Valid()
      modifies this
      ensures Valid() && r == this
      ensures State() == old(State()).(frameUnits := Some(units), frameStart := Some(Encode(bound)))
    {
      frameUnits := Some(units);
      frameStart := Some(Encode(bound));
      r := this;
    }

    /** The fifteen `rowsBetweenX`, `rangeBetweenX` and `groupsBetweenX` setters delegate to `Frame`. */
    method FrameBetween(units: FrameUnits, bound: FrameBound) returns (r: WindowSpecificationImpl)
      requires Valid()
      modifies this
      ensures Valid() && r == this
      ensures State() == old(State()).(frameUnits := Some(units), frameStart := Some(Encode(bound)))
    {
      var _ := Frame(units, bound);
      r := this;
    }

    /** The five `andX` setters: only the encoded end bound changes. */
    method And(bound: FrameBound) returns (r: WindowSpecificationImpl)
      requires Valid()
      modifies this
      ensures Valid() && r == this
      ensures State() == old(State()).(frameEnd := Some(Encode(bound)))
    {
      frameEnd := Some(Encode(bound));
      r := this;
    }

    /** The four `excludeX` setters: only the exclusion changes. */
    method Exclude(e: FrameExclude) returns (r: WindowSpecificationImpl)
      requires Valid()
      modifies this
      ensures Valid() && r == this
      ensures State() == old(State()).(exclude := Some(e))
    {
      exclude := Some(e);
      r := this;
    }

    /** `accept(ctx)`: counts the clauses, then emits them one after the other. */
    method Accept(ctx: Context, w: Option<WindowFunction>)
      requires Valid()
      modifies ctx
      ensures ctx.tokens == old(ctx.tokens) + AcceptTokens(State(), ctx.dialect, w)
      ensures ctx.paramType == old(ctx.paramType) && ctx.binds == old(ctx.binds)
    {
      ghost var st := State();
      var o := RenderedOrderBy(ctx.dialect, w);
      var clauses := CountClauses(o);
      var indent := clauses > 1;

      ghost var t0 := ctx.tokens;
      if indent {
        ctx.Append([FormatIndentStart, FormatNewLine]);
      }
      ghost var t1 := ctx.tokens;
      if windowDefinition.Some? {
        ctx.Append([Visit(WindowDefinitionPart(windowDefinition.value))]);
      }
      ghost var t2 := ctx.tokens;
      AcceptPartitionBy(ctx);
      ghost var t3 := ctx.tokens;
      AcceptOrderBy(ctx, o);
      ghost var t4 := ctx.tokens;
      AcceptFrame(ctx, o);
      ghost var t5 := ctx.tokens;
      if indent {
        ctx.Append([FormatIndentEnd, FormatNewLine]);
      }
      assert t1 == t0 + IndentOpen(indent);
      assert t2 == t1 + WindowDefinitionTokens(st);
      assert ctx.tokens == t5 + IndentClose(indent);
      AppendSix(t0, IndentOpen(indent), WindowDefinitionTokens(st), PartitionTokens(st, ctx.dialect),
        OrderTokens(st, o), FrameTokens(st, o), IndentClose(indent));
    }

    /**
     * The order list `accept` renders: the explicit one, or `(SELECT 1)`
     * when it is empty and the window function needs an ORDER BY here.
     */
    method RenderedOrderBy(d: Dialect, w: Option<WindowFunction>) returns (o: seq<SortField>)
      ensures |orderBy| > 0 ==> o == orderBy
      ensures |orderBy| == 0 ==> (o == [IMPLICIT_ORDER] <==> RequiresOrderBy(w, d))
      ensures |orderBy| == 0 ==> (o == [] <==> !RequiresOrderBy(w, d))
    {
      o := orderBy;
      if |o| == 0 && RequiresOrderBy(w, d) {
        o := [IMPLICIT_ORDER];
      }
    }

    /** The number of clauses `accept` renders, which decides the indentation. */
    method CountClauses(o: seq<SortField>) returns (clauses: nat)
      ensures clauses <= 4
      ensures clauses == 0 <==> windowDefinition.None? && |partitionBy| == 0 && |o| == 0 && frameStart.None?
      ensures clauses == ClauseCount(State(), o)
    {
      clauses := 0;
      if windowDefinition.Some? { clauses := clauses + 1; }
      if |partitionBy| > 0 { clauses := clauses + 1; }
      if |o| > 0 { clauses := clauses + 1; }
      if frameStart.Some? { clauses := clauses + 1; }
    }

    /** The PARTITION BY part of `accept`. */
    method AcceptPartitionBy(ctx: Context)
      requires Valid()
      modifies ctx
      ensures ctx.tokens == old(ctx.tokens) + PartitionTokens(State(), ctx.dialect)
      ensures ctx.paramType == old(ctx.paramType) && ctx.binds == old(ctx.binds)
    {
      if |partitionBy| > 0 {
        if partitionByOne && ctx.dialect in OMIT_PARTITION_BY_ONE {
        } else {
          if windowDefinition.Some? {
            ctx.Append([FormatSeparator]);
          }
          ctx.Append([Kw(K_PARTITION_BY), SeparatorRequired, Visit(FieldListPart(partitionBy))]);
        }
      }
    }

    /** The ORDER BY part of `accept`, for the order list `o` it renders. */
    method AcceptOrderBy(ctx: Context, o: seq<SortField>)
      requires Valid()
      modifies ctx
      ensures ctx.tokens == old(ctx.tokens) + OrderTokens(State(), o)
      ensures ctx.paramType == old(ctx.paramType) && ctx.binds == old(ctx.binds)
    {
      if |o| > 0 {
        if windowDefinition.Some? || |partitionBy| > 0 {
          ctx.Append([FormatSeparator]);
        }
        ctx.Append([Kw(K_ORDER_BY), SeparatorRequired, Visit(SortFieldListPart(o))]);
      }
    }

    /** The frame part of `accept`. */
    method AcceptFrame(ctx: Context, o: seq<SortField>)
      requires Valid()
      modifies ctx
      ensures ctx.tokens == old(ctx.tokens) + FrameTokens(State(), o)
      ensures ctx.paramType == old(ctx.paramType) && ctx.binds == old(ctx.binds)
    {
      if frameStart.Some? {
        ghost var t0 := ctx.tokens;
        var sep := windowDefinition.Some? || |partitionBy| > 0 || |o| > 0;
        if sep {
          ctx.Append([FormatSeparator]);
        }
        ghost var t1 := ctx.tokens;
        ctx.Append([Kw(UnitsKeyword(frameUnits.value)), Sql(" ")]);
        ghost var t2 := ctx.tokens;
        AcceptBounds(ctx, frameStart.value, frameEnd);
        ghost var t3 := ctx.tokens;
        if exclude.Some? {
          ctx.Append([Sql(" "), Kw(K_EXCLUDE), Sql(" "), Kw(ExcludeKeyword(exclude.value))]);
        }
        ghost var sepTokens := if sep then [FormatSeparator] else [];
        assert t1 == t0 + sepTokens;
        assert ctx.tokens == t3 + ExcludeTokens(State());
        AppendFour(t0, sepTokens, [Kw(UnitsKeyword(frameUnits.value)), Sql(" ")], BoundsTokens(frameStart.value, frameEnd), ExcludeTokens(State()));
      }
    }
  }

  /** The bounds part of `accept`: one bound, or BETWEEN and two. */
  method AcceptBounds(ctx: Context, start: int32, end: Option<int32>)
    modifies ctx
    ensures ctx.tokens == old(ctx.tokens) + BoundsTokens(start, end)
    ensures ctx.paramType == old(ctx.paramType) && ctx.binds == old(ctx.binds)
  {
    if end.Some? {
      ghost var t0 := ctx.tokens;
      ctx.Append([Kw(K_BETWEEN), Sql(" ")]);
      ToSQLRows(ctx, start);
      ctx.Append([Sql(" "), Kw(K_AND), Sql(" ")]);
      ToSQLRows(ctx, end.value);
      AppendFour(t0, [Kw(K_BETWEEN), Sql(" ")], RowsTokens(start), [Sql(" "), Kw(K_AND), Sql(" ")], RowsTokens(end.value));
    } else {
      ToSQLRows(ctx, start);
    }
  }

  lemma AppendFour(t: seq<Token>, p1: seq<Token>, p2: seq<Token>, p3: seq<Token>, p4: seq<Token>)
    ensures t + (p1 + p2 + p3 + p4) == t + p1 + p2 + p3 + p4
  {
    AppendAssoc(t, p1 + p2 + p3, p4);
    AppendAssoc(t, p1 + p2, p3);
    AppendAssoc(t, p1, p2);
  }

  lemma AppendSix(t: seq<Token>, p1: seq<Token>, p2: seq<Token>, p3: seq<Token>, p4: seq<Token>, p5: seq<Token>, p6: seq<Token>)
    ensures t + (p1 + p2 + p3 + p4 + p5 + p6) == t + p1 + p2 + p3 + p4 + p5 + p6
  {
    AppendAssoc(t, p1 + p2 + p3 + p4 + p5, p6);
    AppendAssoc(t, p1 + p2 + p3 + p4, p5);
    AppendAssoc(t, p1 + p2 + p3, p4);
    AppendAssoc(t, p1 + p2, p3);
    AppendAssoc(t, p1, p2);
  }

  /** `toSQLRows(ctx, rows)`. */
  method ToSQLRows(ctx: Context, rows: int32)
    modifies ctx
    ensures ctx.tokens == old(ctx.tokens) + RowsTokens(rows)
    ensures ctx.paramType == old(ctx.paramType) && ctx.binds == old(ctx.binds)
  {
    if rows == INT_MIN {
      ctx.Append([Kw(K_UNBOUNDED_PRECEDING)]);
    } else if rows == INT_MAX {
      ctx.Append([Kw(K_UNBOUNDED_FOLLOWING)]);
    } else if rows < 0 {
      ctx.Append([SqlInt(-(rows as int)), Sql(" "), Kw(K_PRECEDING)]);
    } else if rows > 0 {
      ctx.Append([SqlInt(rows), Sql(" "), Kw(K_FOLLOWING)]);
    } else {
      ctx.Append([Kw(K_CURRENT_ROW)]);
    }
  }

  /**
   * Changing every slot of a copy, through PARTITION BY, ORDER BY, a
   * BETWEEN frame and an exclusion, leaves the original untouched.
   */
  method CopyIsIndependent(w: WindowSpecificationImpl, fields: seq<Field>, sorts: seq<SortField>,
                           units: FrameUnits, start: FrameBound, end: FrameBound, e: FrameExclude)
    returns (c: WindowSpecificationImpl)
    requires w.Valid()
    ensures fresh(c) && c.Valid()
    ensures c.State() == w.State().(partitionBy := w.partitionBy + fields, orderBy := w.orderBy + sorts,
      frameUnits := Some(units), frameStart := Some(Encode(start)), frameEnd := Some(Encode(end)), exclude := Some(e))
    ensures unchanged(w)
  {
    c := w.Copy();
    var r := c.PartitionBy(fields);
    r := r.OrderBy(sorts);
    r := r.FrameBetween(units, start);
    r := r.And(end);
    r := r.Exclude(e);
  }
}
