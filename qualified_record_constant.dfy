/**
 * `QualifiedRecordConstant`: a user-defined type (UDT) record used as a bind
 * value. It renders as a constructor call over its values, as
 * `ROW(…)::<type>` on Postgres and YugabyteDB; when binding, only those two
 * dialects are supported, where each value is bound on its own.
 */
module QualifiedRecordConstant {
  import opened Wrappers
  import opened Qom
  import opened Rendering

  /** The record: its UDT's name, its fields, and a value (or `null`) per field. */
  datatype UdtRecord = UdtRecord(qualifier: Name, fields: seq<Field>, values: seq<Option<Value>>)

  predicate WellFormed(r: UdtRecord)
  {
    |r.fields| == |r.values|
  }

  /** A constant: the record and the `isInline()` flag of the parameter. */
  datatype Constant = Constant(record: UdtRecord, inline: bool)

  /** The result of `bind0`: done, or `SQLDialectNotSupportedException`. */
  datatype BindOutcome = Bound | DialectNotSupported(dialect: Dialect)

  /** Postgres and YugabyteDB render and bind the record as a `ROW` of its values. */
  predicate RowDialect(d: Dialect)
  {
    d == Postgres || d == YugabyteDB
  }

  /** `val(value.get(field), field)`: the i-th value typed like the i-th field. */
  function TypedValue(r: UdtRecord, i: nat): Field
    requires WellFormed(r) && i < |r.fields|
  {
    Val(r.values[i], FieldType(r.fields[i]))
  }

  /** The value list after the loop has visited n fields, each visited after its separator. */
  function ValueTokens(r: UdtRecord, n: nat, pt: ParamType): seq<Token>
    requires WellFormed(r) && n <= |r.fields|
  {
    if n == 0 then []
    else ValueTokens(r, n - 1, pt) + [Sql(if n == 1 then "" else ", "), Param(TypedValue(r, n - 1), pt)]
  }

  /** The output of `toSQLInline` under the parameter type `pt`. */
  function InlineTokens(r: UdtRecord, d: Dialect, pt: ParamType): seq<Token>
    requires WellFormed(r)
  {
    (if RowDialect(d) then [Kw(K_ROW)] else [Visit(NamePart(r.qualifier))])
      + [Sql("(")] + ValueTokens(r, |r.fields|, pt) + [Sql(")")]
      + (if RowDialect(d) then [Sql("::"), Visit(NamePart(r.qualifier))] else [])
  }

  /** The parameter type the values render under: INLINED for an inline constant, else the context's. */
  function EffectiveParamType(c: Constant, pt: ParamType): ParamType
  {
    if c.inline then Inlined else pt
  }

  /** The values `bind0` binds on Postgres and YugabyteDB: `val(value.get(field))`, untyped. */
  function BoundValues(r: UdtRecord): seq<Field>
    requires WellFormed(r)
  {
    seq(|r.fields|, i requires 0 <= i < |r.fields| => Val(r.values[i], Inferred))
  }

  /** The value loop of `toSQLInline`. */
  method RenderValues(r: UdtRecord, ctx: Context)
    requires WellFormed(r)
    modifies ctx
    ensures ctx.tokens == old(ctx.tokens) + ValueTokens(r, |r.fields|, ctx.paramType)
    ensures ctx.paramType == old(ctx.paramType) && ctx.binds == old(ctx.binds)
  {
    var separator := "";
    var i := 0;
    while i < |r.fields|
      invariant 0 <= i <= |r.fields|
      invariant separator == if i == 0 then "" else ", "
      invariant ctx.tokens == old(ctx.tokens) + ValueTokens(r, i, ctx.paramType)
      invariant ctx.paramType == old(ctx.paramType) && ctx.binds == old(ctx.binds)
    {
      ctx.Append([Sql(separator), Param(Val(r.values[i], FieldType(r.fields[i])), ctx.paramType)]);
      separator := ", ";
      i := i + 1;
    }
  }

  /** `toSQLInline`: the constructor (`ROW` or the UDT), the values in parentheses, and the cast on Postgres. */
  method ToSqlInline(r: UdtRecord, ctx: Context)
    requires WellFormed(r)
    modifies ctx
    ensures ctx.tokens == old(ctx.tokens) + InlineTokens(r, ctx.dialect, ctx.paramType)
    ensures ctx.paramType == old(ctx.paramType) && ctx.binds == old(ctx.binds)
  {
    var head: seq<Token> := if RowDialect(ctx.dialect) then [Kw(K_ROW)] else [Visit(NamePart(r.qualifier))];
    var cast: seq<Token> := if RowDialect(ctx.dialect) then [Sql("::"), Visit(NamePart(r.qualifier))] else [];
    ctx.Append(head + [Sql("(")]);
    RenderValues(r, ctx);
    ctx.Append([Sql(")")] + cast);
    AppendAssoc(head + [Sql("(")], ValueTokens(r, |r.fields|, ctx.paramType), [Sql(")")] + cast);
  }

  /**
   * `toSQL0`: an inline constant switches the context to INLINED for its
   * values and restores the previous parameter type afterwards.
   */
  method ToSql0(c: Constant, ctx: Context)
    requires WellFormed(c.record)
    modifies ctx
    ensures ctx.tokens == old(ctx.tokens) + InlineTokens(c.record, ctx.dialect, EffectiveParamType(c, old(ctx.paramType)))
    ensures ctx.paramType == old(ctx.paramType) && ctx.binds == old(ctx.binds)
  {
    var paramType := ctx.paramType;
    if c.inline {
      ctx.paramType := Inlined;
    }
    ToSqlInline(c.record, ctx);
    if c.inline {
      ctx.paramType := paramType;
    }
  }

  /** `bind0`: on Postgres and YugabyteDB bind each value in field order; elsewhere fail. */
  method Bind0(r: UdtRecord, ctx: Context) returns (outcome: BindOutcome)
    requires WellFormed(r)
    modifies ctx
    ensures outcome == Bound <==> RowDialect(ctx.dialect)
    ensures outcome.DialectNotSupported? ==> outcome.dialect == ctx.dialect
    ensures ctx.binds == old(ctx.binds) + (if RowDialect(ctx.dialect) then BoundValues(r) else [])
    ensures ctx.paramType == old(ctx.paramType) && ctx.tokens == old(ctx.tokens)
  {
    if RowDialect(ctx.dialect) {
      var i := 0;
      while i < |r.fields|
        invariant 0 <= i <= |r.fields|
        invariant ctx.binds == old(ctx.binds) + BoundValues(r)[..i]
        invariant ctx.paramType == old(ctx.paramType) && ctx.tokens == old(ctx.tokens)
      {
        ctx.Bind(Val(r.values[i], Inferred));
        assert BoundValues(r)[..i + 1] == BoundValues(r)[..i] + [Val(r.values[i], Inferred)];
        i := i + 1;
      }
      assert BoundValues(r)[..i] == BoundValues(r);
      outcome := Bound;
    } else {
      outcome := DialectNotSupported(ctx.dialect);
    }
  }

  /** `accept`: render on a render context, bind on a bind context. */
  method Accept(c: Constant, ctx: Context) returns (outcome: BindOutcome)
    requires WellFormed(c.record)
    modifies ctx
    ensures ctx.rendering ==> (outcome == Bound && ctx.binds == old(ctx.binds)
      && ctx.tokens == old(ctx.tokens) + InlineTokens(c.record, ctx.dialect, EffectiveParamType(c, old(ctx.paramType))))
    ensures !ctx.rendering ==> (ctx.tokens == old(ctx.tokens)
      && (outcome == Bound <==> RowDialect(ctx.dialect))
      && ctx.binds == old(ctx.binds) + (if RowDialect(ctx.dialect) then BoundValues(c.record) else []))
    ensures ctx.paramType == old(ctx.paramType)
  {
    if ctx.rendering {
      ToSql0(c, ctx);
      outcome := Bound;
    } else {
      outcome := Bind0(c.record, ctx);
    }
  }

  // Properties of the rendering

  /** The parameters of a token sequence, in order. */
  function Params(ts: seq<Token>): seq<Token>
  {
    if |ts| == 0 then []
    else Params(ts[..|ts| - 1]) + (if ts[|ts| - 1].Param? then [ts[|ts| - 1]] else [])
  }

  lemma ParamsAppend(a: seq<Token>, b: seq<Token>)
    ensures Params(a + b) == Params(a) + Params(b)
    decreases |b|
  {
    if |b| > 0 {
      var ab := a + b;
      var init := b[..|b| - 1];
      var tail: seq<Token> := if b[|b| - 1].Param? then [b[|b| - 1]] else [];
      assert ab[..|ab| - 1] == a + init;
      assert ab[|ab| - 1] == b[|b| - 1];
      assert Params(ab) == Params(a + init) + tail;
      ParamsAppend(a, init);
      assert Params(b) == Params(init) + tail;
    } else {
      assert a + b == a;
    }
  }

  /** The parameters of one step of the value loop: its value. */
  lemma ParamsOfStep(sep: string, p: Token)
    requires p.Param?
    ensures Params([Sql(sep), p]) == [p]
  {
    var one := [Sql(sep)];
    var step := [Sql(sep), p];
    assert one[..0] == [];
    assert Params(one) == [];
    assert step[..1] == one;
    assert Params(step) == Params(one) + [p];
  }

  /** One step of the value loop adds its value, typed like its field, to the parameters. */
  lemma ParamsOfValueStep(r: UdtRecord, n: nat, pt: ParamType)
    requires WellFormed(r) && 0 < n <= |r.fields|
    ensures Params(ValueTokens(r, n, pt)) == Params(ValueTokens(r, n - 1, pt)) + [Param(TypedValue(r, n - 1), pt)]
  {
    var v := Param(TypedValue(r, n - 1), pt);
    var sep := if n == 1 then "" else ", ";
    ParamsAppend(ValueTokens(r, n - 1, pt), [Sql(sep), v]);
    ParamsOfStep(sep, v);
  }

  /** The values appear in field order, each typed like its field and rendered under `pt`. */
  lemma {:induction false} ValuesInFieldOrder(r: UdtRecord, n: nat, pt: ParamType)
    requires WellFormed(r) && n <= |r.fields|
    ensures |Params(ValueTokens(r, n, pt))| == n
    ensures forall k :: 0 <= k < n ==> Params(ValueTokens(r, n, pt))[k] == Param(TypedValue(r, k), pt)
  {
    if n > 0 {
      ValuesInFieldOrder(r, n - 1, pt);
      ParamsOfValueStep(r, n, pt);
    }
  }

  /** The loop emits two tokens per value, an empty separator first, and every value last in its step. */
  lemma {:induction false} ValueTokensShape(r: UdtRecord, n: nat, pt: ParamType)
    requires WellFormed(r) && n <= |r.fields|
    ensures |ValueTokens(r, n, pt)| == 2 * n
    ensures n > 0 ==> ValueTokens(r, n, pt)[0] == Sql("")
    ensures n > 0 ==> ValueTokens(r, n, pt)[2 * n - 1] == Param(TypedValue(r, n - 1), pt)
  {
    if n > 0 {
      ValueTokensShape(r, n - 1, pt);
      var step := [Sql(if n == 1 then "" else ", "), Param(TypedValue(r, n - 1), pt)];
      assert ValueTokens(r, n, pt) == ValueTokens(r, n - 1, pt) + step;
    }
  }

  /** One step of the value loop adds a `", "` separator exactly when its separator is not empty. */
  lemma SeparatorsOfStep(a: seq<Token>, sep: string, p: Token)
    requires sep == "" || sep == ", "
    requires p.Param?
    ensures multiset(a + [Sql(sep), p])[Sql(", ")] == multiset(a)[Sql(", ")] + (if sep == "" then 0 else 1)
  {
    assert multiset(a + [Sql(sep), p]) == multiset(a) + multiset{Sql(sep), p};
    if sep == "" {
      assert |sep| == 0 && Sql(sep) != Sql(", ");
    }
  }

  /** n values give n - 1 separators `", "`: none before the first value, none after the last. */
  lemma {:induction false} SeparatorBetweenValues(r: UdtRecord, n: nat, pt: ParamType)
    requires WellFormed(r) && n <= |r.fields|
    ensures multiset(ValueTokens(r, n, pt))[Sql(", ")] == if n == 0 then 0 else n - 1
  {
    if n > 0 {
      SeparatorBetweenValues(r, n - 1, pt);
      var v := Param(TypedValue(r, n - 1), pt);
      var sep := if n == 1 then "" else ", ";
      assert ValueTokens(r, n, pt) == ValueTokens(r, n - 1, pt) + [Sql(sep), v];
      SeparatorsOfStep(ValueTokens(r, n - 1, pt), sep, v);
    }
  }

  /**
   * On Postgres and YugabyteDB the output is `ROW(values)::<type>`; on every
   * other dialect it is `<type>(values)` with no cast.
   */
  lemma RowOnPostgresOnly(r: UdtRecord, d: Dialect, pt: ParamType)
    requires WellFormed(r)
    ensures RowDialect(d) ==> (InlineTokens(r, d, pt) ==
      [Kw(K_ROW), Sql("(")] + ValueTokens(r, |r.fields|, pt) + [Sql(")"), Sql("::"), Visit(NamePart(r.qualifier))])
    ensures !RowDialect(d) ==> (InlineTokens(r, d, pt) ==
      [Visit(NamePart(r.qualifier)), Sql("(")] + ValueTokens(r, |r.fields|, pt) + [Sql(")")])
    ensures Kw(K_ROW) in InlineTokens(r, d, pt) <==> RowDialect(d)
    ensures Sql("::") in InlineTokens(r, d, pt) <==> RowDialect(d)
  {
    var vs := ValueTokens(r, |r.fields|, pt);
    NoKeywordInValues(r, |r.fields|, pt);
    if RowDialect(d) {
      assert InlineTokens(r, d, pt) == [Kw(K_ROW), Sql("(")] + vs + [Sql(")"), Sql("::"), Visit(NamePart(r.qualifier))];
    } else {
      assert InlineTokens(r, d, pt) == [Visit(NamePart(r.qualifier)), Sql("(")] + vs + [Sql(")")];
    }
  }

  /** The value list holds separators and parameters only. */
  lemma {:induction false} NoKeywordInValues(r: UdtRecord, n: nat, pt: ParamType)
    requires WellFormed(r) && n <= |r.fields|
    ensures Kw(K_ROW) !in ValueTokens(r, n, pt) && Sql("::") !in ValueTokens(r, n, pt)
  {
    if n > 0 {
      NoKeywordInValues(r, n - 1, pt);
      var step := [Sql(if n == 1 then "" else ", "), Param(TypedValue(r, n - 1), pt)];
      assert ValueTokens(r, n, pt) == ValueTokens(r, n - 1, pt) + step;
    }
  }

  /**
   * Every value of an inline constant renders INLINED whatever the context's
   * parameter type was; otherwise under the context's own type.
   */
  lemma InlineValuesAreInlined(c: Constant, pt: ParamType, k: nat)
    requires WellFormed(c.record) && k < |c.record.fields|
    ensures var ps := Params(ValueTokens(c.record, |c.record.fields|, EffectiveParamType(c, pt)));
      k < |ps| && ps[k].Param? && ps[k].paramType == (if c.inline then Inlined else pt)
  {
    ValuesInFieldOrder(c.record, |c.record.fields|, EffectiveParamType(c, pt));
  }
}
