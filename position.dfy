/**
 * `Position`: the `POSITION` function. Rendering picks, per dialect, a
 * `LOCATE`, `INSTR` or `POSITION` call, or a `CASE` emulation of a start
 * index; the withers rebuild the node through the three-argument
 * constructor.
 */
module Position {
  import opened Wrappers
  import opened Qom
  import opened SqlEval

  /** A `Position` node: `in`, `search` and an optional `startIndex`. */
  type PositionField = f: Field | f.PositionNode? witness PositionNode(One, One, None)

  const N_LOCATE: Name := UnquotedName("locate")
  const N_INSTR: Name := UnquotedName("instr")
  const N_POSITION: Name := UnquotedName("position")

  /** `new Position(in, search)`. */
  function Make(inString: Option<Field>, search: Option<Field>): PositionField
  {
    PositionNode(NullSafe(inString, VARCHAR), NullSafe(search, VARCHAR), None)
  }

  /** `new Position(in, search, startIndex)`. */
  function MakeWithStart(inString: Option<Field>, search: Option<Field>, startIndex: Option<Field>): PositionField
  {
    PositionNode(NullSafe(inString, VARCHAR), NullSafe(search, VARCHAR), Some(NullSafe(startIndex, INTEGER)))
  }

  /**
   * The two-argument constructor leaves the start index `null`; the
   * three-argument one stores all three, each `null` argument replaced by a
   * typed NULL, so its start index is never `null`.
   */
  lemma ConstructorSlots(i: Option<Field>, s: Option<Field>, st: Option<Field>)
    ensures Make(i, s).startIndex == None
    ensures Make(i, s).inString == NullSafe(i, VARCHAR) && Make(i, s).search == NullSafe(s, VARCHAR)
    ensures MakeWithStart(i, s, st).inString == NullSafe(i, VARCHAR)
    ensures MakeWithStart(i, s, st).search == NullSafe(s, VARCHAR)
    ensures MakeWithStart(i, s, st).startIndex == Some(NullSafe(st, INTEGER))
    ensures MakeWithStart(i, s, st).startIndex.Some?
  {
  }

  // Rendering

  /** The SQL call `accept` renders, with each function's own argument order. */
  datatype Call =
    /** `LOCATE(search, in[, start])`. */
    | Locate(search: Field, inString: Field, start: Option<Field>)
    /** `INSTR(in, search)`. */
    | Instr(inString: Field, search: Field)
    /** `POSITION(search IN in)`. */
    | PositionIn(search: Field, inString: Field)
    /** A `CASE` expression standing for a start index the dialect cannot pass. */
    | Emulated(expression: Field)

  /** `CASE POSITION(search IN SUBSTRING(in, start)) WHEN 0 THEN 0 ELSE POSITION(…) + (start - 1) END`. */
  function Emulation(inString: Field, search: Field, start: Field): Field
  {
    var p := PositionNode(SubstringNode(inString, start), search, None);
    CaseNode(p, Inline(0), Inline(0), AddNode(p, SubNode(start, One)))
  }

  /**
   * The dialect switch of `accept`. Derby, and H2 given a start index, call
   * `LOCATE`; SQLite calls `INSTR` when there is no start index; other
   * dialects call `POSITION` without one and emulate one with `CASE`. Each
   * call passes the node's own `in` and `search`, and a start index is
   * never dropped.
   */
  function CallOf(p: PositionField, d: Dialect): (c: Call)
    ensures c.Locate? <==> d == Derby || (d == H2 && p.startIndex.Some?)
    ensures c.Instr? <==> d == SQLite && p.startIndex.None?
    ensures c.Emulated? <==> p.startIndex.Some? && d != Derby && d != H2
    ensures !c.Emulated? ==> c.search == p.search && c.inString == p.inString
    ensures c.Locate? ==> c.start == p.startIndex
    ensures c.Emulated? ==> c.expression == Emulation(p.inString, p.search, p.startIndex.value)
  {
    if p.startIndex.Some? then
      if d == Derby || d == H2 then Locate(p.search, p.inString, p.startIndex)
      else Emulated(Emulation(p.inString, p.search, p.startIndex.value))
    else if d == Derby then Locate(p.search, p.inString, None)
    else if d == SQLite then Instr(p.inString, p.search)
    else PositionIn(p.search, p.inString)
  }

  function CallTokens(c: Call): seq<Token>
  {
    match c
    case Locate(s, i, None) =>
      [Visit(NamePart(N_LOCATE)), Sql("("), Visit(FieldPart(s)), Sql(", "), Visit(FieldPart(i)), Sql(")")]
    case Locate(s, i, Some(st)) =>
      [Visit(NamePart(N_LOCATE)), Sql("("), Visit(FieldPart(s)), Sql(", "), Visit(FieldPart(i)), Sql(", "),
       Visit(FieldPart(st)), Sql(")")]
    case Instr(i, s) =>
      [Visit(NamePart(N_INSTR)), Sql("("), Visit(FieldPart(i)), Sql(", "), Visit(FieldPart(s)), Sql(")")]
    case PositionIn(s, i) =>
      [Visit(NamePart(N_POSITION)), Sql("("), Visit(FieldPart(s)), Sql(" "), Kw(K_IN), Sql(" "),
       Visit(FieldPart(i)), Sql(")")]
    case Emulated(f) => [Visit(FieldPart(f))]
  }

  /** The output of `accept`. */
  function AcceptTokens(p: PositionField, d: Dialect): seq<Token>
  {
    CallTokens(CallOf(p, d))
  }

  /** The rendered text per dialect. */
  lemma RenderingPerDialect(p: PositionField, d: Dialect)
    ensures p.startIndex.None? && d == Derby ==> (AcceptTokens(p, d) ==
      [Visit(NamePart(N_LOCATE)), Sql("("), Visit(FieldPart(p.search)), Sql(", "), Visit(FieldPart(p.inString)), Sql(")")])
    ensures p.startIndex.None? && d == SQLite ==> (AcceptTokens(p, d) ==
      [Visit(NamePart(N_INSTR)), Sql("("), Visit(FieldPart(p.inString)), Sql(", "), Visit(FieldPart(p.search)), Sql(")")])
    ensures p.startIndex.None? && d != Derby && d != SQLite ==> (AcceptTokens(p, d) ==
      [Visit(NamePart(N_POSITION)), Sql("("), Visit(FieldPart(p.search)), Sql(" "), Kw(K_IN), Sql(" "),
       Visit(FieldPart(p.inString)), Sql(")")])
    ensures p.startIndex.Some? && (d == Derby || d == H2) ==> (AcceptTokens(p, d) ==
      [Visit(NamePart(N_LOCATE)), Sql("("), Visit(FieldPart(p.search)), Sql(", "), Visit(FieldPart(p.inString)), Sql(", "),
       Visit(FieldPart(p.startIndex.value)), Sql(")")])
    ensures p.startIndex.Some? && d != Derby && d != H2 ==> (AcceptTokens(p, d) ==
      [Visit(FieldPart(Emulation(p.inString, p.search, p.startIndex.value)))])
  {
  }

  /** The rendered tokens determine the call, so no two calls, in particular no two argument orders, render alike. */
  lemma {:induction false} CallTokensInjective(c1: Call, c2: Call)
    requires CallTokens(c1) == CallTokens(c2)
    ensures c1 == c2
  {
    var t := CallTokens(c1);
    assert CallTokens(c2)[0] == t[0];
    match c1 {
      case Locate(s, i, st) =>
        assert t[2] == Visit(FieldPart(s)) && t[4] == Visit(FieldPart(i));
        if st.Some? {
          assert t[6] == Visit(FieldPart(st.value)) && |t| == 8;
        } else {
          assert |t| == 6;
        }
      case Instr(i, s) =>
        assert t[2] == Visit(FieldPart(i)) && t[4] == Visit(FieldPart(s));
      case PositionIn(s, i) =>
        assert t[2] == Visit(FieldPart(s)) && t[6] == Visit(FieldPart(i));
      case Emulated(f) =>
        assert t[0] == Visit(FieldPart(f));
    }
  }

  /** The value of a call, each SQL function taken with its own argument order. */
  function CallValue(c: Call, e: Env): int
  {
    match c
    case Locate(s, i, None) => SqlPosition(EvalStr(s, e), EvalStr(i, e))
    case Locate(s, i, Some(st)) => LocateFrom(EvalStr(s, e), EvalStr(i, e), EvalNum(st, e))
    case Instr(i, s) => SqlPosition(EvalStr(s, e), EvalStr(i, e))
    case PositionIn(s, i) => SqlPosition(EvalStr(s, e), EvalStr(i, e))
    case Emulated(f) => EvalNum(f, e)
  }

  /** The start index lies where `LOCATE` and the emulation agree. */
  predicate StartInRange(p: PositionField, e: Env)
  {
    p.startIndex.Some? ==>
      var start := EvalNum(p.startIndex.value, e);
      1 <= start && (|EvalStr(p.search, e)| > 0 || start <= |EvalStr(p.inString, e)| + 1)
  }

  /** The emulation evaluates to the value of `LOCATE(search, in, start)`. */
  lemma EmulationValue(inString: Field, search: Field, start: Field, e: Env)
    requires var st := EvalNum(start, e); 1 <= st && (|EvalStr(search, e)| > 0 || st <= |EvalStr(inString, e)| + 1)
    ensures EvalNum(Emulation(inString, search, start), e)
      == LocateFrom(EvalStr(search, e), EvalStr(inString, e), EvalNum(start, e))
  {
    var n, h, st := EvalStr(search, e), EvalStr(inString, e), EvalNum(start, e);
    var p := PositionNode(SubstringNode(inString, start), search, None);
    assert EvalStr(SubstringNode(inString, start), e) == SqlSubstring(h, st);
    assert EvalNum(p, e) == SqlPosition(n, SqlSubstring(h, st));
    assert EvalNum(SubNode(start, One), e) == st - 1;
    assert EvalNum(AddNode(p, SubNode(start, One)), e) == EvalNum(p, e) + (st - 1);
    EmulationMeansLocate(n, h, st);
  }

  /**
   * On every dialect the rendered call finds `search` in `in`: its value is
   * the value of the `POSITION` node itself (for a start index, within the
   * range where the emulation is defined).
   */
  lemma AcceptMeansPosition(p: PositionField, d: Dialect, e: Env)
    requires StartInRange(p, e)
    ensures CallValue(CallOf(p, d), e) == EvalNum(p, e)
  {
    if p.startIndex.Some? && d != Derby && d != H2 {
      EmulationValue(p.inString, p.search, p.startIndex.value, e);
    }
  }

  // Query object model

  /** `(a1, a2, a3) -> new Position(a1, a2, a3)`, as written. */
  function ConstructAsWritten(a1: Option<Field>, a2: Option<Field>, a3: Option<Field>): PositionField
  {
    MakeWithStart(a1, a2, a3)
  }

  function WithInAsWritten(p: PositionField, x: Option<Field>): PositionField
  {
    ConstructAsWritten(x, Some(p.search), p.startIndex)
  }

  function WithSearchAsWritten(p: PositionField, x: Option<Field>): PositionField
  {
    ConstructAsWritten(Some(p.inString), x, p.startIndex)
  }

  function WithStartIndexAsWritten(p: PositionField, x: Option<Field>): PositionField
  {
    ConstructAsWritten(Some(p.inString), Some(p.search), x)
  }

  /**
   * As written, every wither of a node without a start index gives it a typed
   * NULL start index; the rebuilt node is no longer equal to the original,
   * and renders through the start-index branch.
   */
  lemma WithersAsWrittenAddStartIndex(p: PositionField, x: Option<Field>)
    requires p.startIndex.None?
    ensures WithInAsWritten(p, x).startIndex == Some(NullOf(INTEGER))
    ensures WithSearchAsWritten(p, x).startIndex == Some(NullOf(INTEGER))
    ensures !Equals(WithInAsWritten(p, Some(p.inString)), p)
    ensures AcceptTokens(WithSearchAsWritten(p, Some(p.search)), Default) ==
      [Visit(FieldPart(Emulation(p.inString, p.search, NullOf(INTEGER))))]
    ensures AcceptTokens(WithSearchAsWritten(p, Some(p.search)), Default) != AcceptTokens(p, Default)
  {
  }

  /**
   * `$constructor`: `in` and `search` made null-safe, and a `null` start
   * index kept `null`.
   */
  function Construct(a1: Option<Field>, a2: Option<Field>, a3: Option<Field>): (r: PositionField)
    ensures r.inString == NullSafe(a1, VARCHAR) && r.search == NullSafe(a2, VARCHAR)
    ensures r.startIndex == a3
  {
    if a3.None? then Make(a1, a2) else MakeWithStart(a1, a2, a3)
  }

  /**
   * `$in(x)`: replaces exactly the `in` slot (a `null` argument by a typed
   * NULL); replacing it by its own value gives back an equal node.
   */
  function WithIn(p: PositionField, x: Option<Field>): (r: PositionField)
    ensures r == PositionNode(NullSafe(x, VARCHAR), p.search, p.startIndex)
    ensures x == Some(p.inString) ==> r == p
  {
    Construct(x, Some(p.search), p.startIndex)
  }

  /** `$search(x)`: replaces exactly the `search` slot, as `WithIn` does `in`. */
  function WithSearch(p: PositionField, x: Option<Field>): (r: PositionField)
    ensures r == PositionNode(p.inString, NullSafe(x, VARCHAR), p.startIndex)
    ensures x == Some(p.search) ==> r == p
  {
    Construct(Some(p.inString), x, p.startIndex)
  }

  /** `$startIndex(x)`: replaces exactly the start index, keeping a `null` one `null`. */
  function WithStartIndex(p: PositionField, x: Option<Field>): (r: PositionField)
    ensures r == PositionNode(p.inString, p.search, x)
    ensures x == p.startIndex ==> r == p
  {
    Construct(Some(p.inString), Some(p.search), x)
  }

  /** `equals`: the three slots pairwise equal (two `null` start indexes are equal). */
  predicate Equals(p: PositionField, q: PositionField)
  {
    p.inString == q.inString && p.search == q.search && p.startIndex == q.startIndex
  }

  /** Two nodes are equal exactly when they are the same value. */
  lemma EqualsIsIdentity(p: PositionField, q: PositionField)
    ensures Equals(p, q) <==> p == q
  {
  }
}
