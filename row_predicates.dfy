/**
 * Two-valued semantics of row value predicates, and the Boolean emulations
 * of them that the `Row2` documentation states for dialects without native
 * row value expressions.
 *
 * The reference semantics follows sections 8.2 (comparison predicate) and
 * 8.3 (between predicate) of ISO/IEC 9075-2:2003: rows of equal degree are
 * equal when all components are equal, and ordered lexicographically. Every
 * column expression is given an integer value by a valuation; NULL and
 * three-valued logic are not modelled.
 */
module RowPredicates {
  import opened Qom

  /** An integer value for every column expression. */
  type Valuation = Field -> int

  /** The values a valuation gives to the components of a row. */
  function Vals(fs: seq<Field>, v: Valuation): seq<int>
  {
    seq(|fs|, i requires 0 <= i < |fs| => v(fs[i]))
  }

  /** The strict lexicographic order on tuples of equal degree. */
  predicate LexLess(x: seq<int>, y: seq<int>)
    requires |x| == |y|
  {
    exists k :: 0 <= k < |x| && x[..k] == y[..k] && x[k] < y[k]
  }

  /** The comparators a comparison predicate can carry. */
  predicate IsOrdering(c: Comparator)
  {
    c.Equals? || c.NotEquals? || c.Less? || c.LessOrEqual? || c.Greater? || c.GreaterOrEqual?
  }

  /** A scalar comparison `x <op> y`. */
  function CompareValues(x: int, c: Comparator, y: int): bool
    requires IsOrdering(c)
  {
    match c
    case Equals => x == y
    case NotEquals => x != y
    case Less => x < y
    case LessOrEqual => x <= y
    case Greater => x > y
    case GreaterOrEqual => x >= y
  }

  /** A row comparison `(x1, …, xn) <op> (y1, …, yn)` (ISO/IEC 9075-2:2003, section 8.2). */
  function CompareRows(x: seq<int>, c: Comparator, y: seq<int>): bool
    requires |x| == |y| && IsOrdering(c)
  {
    match c
    case Equals => x == y
    case NotEquals => x != y
    case Less => LexLess(x, y)
    case LessOrEqual => LexLess(x, y) || x == y
    case Greater => LexLess(y, x)
    case GreaterOrEqual => LexLess(y, x) || x == y
  }

  /** `x BETWEEN ASYMMETRIC lo AND hi`, i.e. `x >= lo AND x <= hi` (ISO/IEC 9075-2:2003, section 8.3). */
  predicate InRange(x: seq<int>, lo: seq<int>, hi: seq<int>)
    requires |x| == |lo| == |hi|
  {
    CompareRows(x, GreaterOrEqual, lo) && CompareRows(x, LessOrEqual, hi)
  }

  /** A condition built from scalar comparisons and Boolean connectives only. */
  predicate ScalarOnly(c: Condition)
  {
    match c
    case NoCondition => true
    case TrueCondition => true
    case FalseCondition => true
    case CompareCondition(_, op, _) => IsOrdering(op)
    case AndCondition(l, r) => ScalarOnly(l) && ScalarOnly(r)
    case OrCondition(l, r) => ScalarOnly(l) && ScalarOnly(r)
    case NotCondition(x) => ScalarOnly(x)
    case _ => false
  }

  /** The conditions this semantics gives a truth value to. */
  predicate Evaluable(c: Condition)
  {
    match c
    case NoCondition => true
    case TrueCondition => true
    case FalseCondition => true
    case CompareCondition(_, op, _) => IsOrdering(op)
    case AndCondition(l, r) => Evaluable(l) && Evaluable(r)
    case OrCondition(l, r) => Evaluable(l) && Evaluable(r)
    case NotCondition(x) => Evaluable(x)
    case RowCondition(a, b, op) => |a| == |b| && IsOrdering(op)
    case RowSubqueryCondition(_, _, _) => false
    case RowBetweenCondition(a, lo, hi, _, _) => |a| == |lo| == |hi|
    case RowIsDistinctFrom(a, operand, _) => operand.DistinctRow? && |operand.fields| == |a|
    case RowInCondition(a, rows, _) => forall i :: 0 <= i < |rows| ==> |rows[i]| == |a|
  }

  /**
   * The truth value of a condition. `noCondition` is the neutral element of
   * AND and holds. Without NULLs, `IS DISTINCT FROM` is `<>`.
   */
  function Eval(c: Condition, v: Valuation): bool
    requires Evaluable(c)
  {
    match c
    case NoCondition => true
    case TrueCondition => true
    case FalseCondition => false
    case CompareCondition(l, op, r) => CompareValues(v(l), op, v(r))
    case AndCondition(l, r) => Eval(l, v) && Eval(r, v)
    case OrCondition(l, r) => Eval(l, v) || Eval(r, v)
    case NotCondition(x) => !Eval(x, v)
    case RowCondition(a, b, op) => CompareRows(Vals(a, v), op, Vals(b, v))
    case RowBetweenCondition(a, lo, hi, not, symmetric) =>
      var (x, y, z) := (Vals(a, v), Vals(lo, v), Vals(hi, v));
      var between := InRange(x, y, z) || (symmetric && InRange(x, z, y));
      if not then !between else between
    case RowIsDistinctFrom(a, operand, not) =>
      var distinct := Vals(a, v) != Vals(operand.fields, v);
      if not then !distinct else distinct
    case RowInCondition(a, rows, not) =>
      var found := exists i :: 0 <= i < |rows| && Vals(rows[i], v) == Vals(a, v);
      if not then !found else found
  }

  // ---------------------------------------------------------------------
  // Facts about tuples
  // ---------------------------------------------------------------------

  lemma ValsPrefix(fs: seq<Field>, k: nat, v: Valuation)
    requires k <= |fs|
    ensures Vals(fs[..k], v) == Vals(fs, v)[..k]
  {
  }

  /** Two tuples of degree n+1 are equal iff their first n components and their last one are. */
  lemma SnocEquality(x: seq<int>, y: seq<int>)
    requires |x| == |y| >= 1
    ensures x == y <==> x[..|x| - 1] == y[..|x| - 1] && x[|x| - 1] == y[|x| - 1]
  {
    var n := |x| - 1;
    if x[..n] == y[..n] && x[n] == y[n] {
      assert x == x[..n] + [x[n]];
      assert y == y[..n] + [y[n]];
    }
  }

  /** The lexicographic order of tuples of degree n+1, in terms of their first n components. */
  lemma LexLessSnoc(x: seq<int>, y: seq<int>)
    requires |x| == |y| >= 1
    ensures LexLess(x, y) <==>
      LexLess(x[..|x| - 1], y[..|x| - 1]) || (x[..|x| - 1] == y[..|x| - 1] && x[|x| - 1] < y[|x| - 1])
  {
    var n := |x| - 1;
    var (xs, ys) := (x[..n], y[..n]);
    if LexLess(x, y) {
      var k :| 0 <= k < |x| && x[..k] == y[..k] && x[k] < y[k];
      if k < n {
        assert xs[..k] == x[..k] && ys[..k] == y[..k];
        assert xs[k] == x[k] && ys[k] == y[k];
      }
    }
    if LexLess(xs, ys) {
      var k :| 0 <= k < n && xs[..k] == ys[..k] && xs[k] < ys[k];
      assert xs[..k] == x[..k] && ys[..k] == y[..k];
    }
    if xs == ys && x[n] < y[n] {
      assert x[..n] == y[..n] && x[n] < y[n];
    }
  }

  /** The lexicographic order is a strict total order: exactly one of `<`, `=`, `>` holds. */
  lemma {:induction false} LexTrichotomy(x: seq<int>, y: seq<int>)
    requires |x| == |y|
    ensures LexLess(x, y) || x == y || LexLess(y, x)
    ensures !(LexLess(x, y) && x == y)
    ensures !(LexLess(x, y) && LexLess(y, x))
  {
    if |x| == 0 {
      assert x == y;
    } else {
      var n := |x| - 1;
      LexTrichotomy(x[..n], y[..n]);
      LexLessSnoc(x, y);
      LexLessSnoc(y, x);
      SnocEquality(x, y);
    }
  }

  /** On rows of degree one, a row comparison is the scalar comparison. */
  lemma CompareRowsDegreeOne(a: int, c: Comparator, b: int)
    requires IsOrdering(c)
    ensures CompareRows([a], c, [b]) == CompareValues(a, c, b)
  {
    LexLessSnoc([a], [b]);
    LexLessSnoc([b], [a]);
    assert [a][..0] == [b][..0];
  }

  // ---------------------------------------------------------------------
  // The emulations
  // ---------------------------------------------------------------------

  /** `(A, B) = (1, 2)` emulated as `A = 1 AND B = 2`. */
  function EqualEmulation(a: seq<Field>, b: seq<Field>): (r: Condition)
    requires |a| == |b| >= 1
    ensures ScalarOnly(r) && Evaluable(r)
    decreases |a|
  {
    var n := |a| - 1;
    if n == 0 then CompareCondition(a[0], Equals, b[0])
    else AndCondition(EqualEmulation(a[..n], b[..n]), CompareCondition(a[n], Equals, b[n]))
  }

  /** `(A, B) <> (1, 2)` emulated as `NOT(A = 1 AND B = 2)`. */
  function NotEqualEmulation(a: seq<Field>, b: seq<Field>): (r: Condition)
    requires |a| == |b| >= 1
    ensures ScalarOnly(r) && Evaluable(r)
  {
    NotCondition(EqualEmulation(a, b))
  }

  /**
   * `(A, B, C) < (1, 2, 3)` emulated as
   * `A < 1 OR (A = 1 AND B < 2) OR (A = 1 AND B = 2 AND C < 3)`, and `>`
   * likewise with `>` for `<` (`op` is `Less` or `Greater`).
   */
  function StrictEmulation(a: seq<Field>, b: seq<Field>, op: Comparator): (r: Condition)
    requires |a| == |b| >= 1 && (op == Less || op == Greater)
    ensures ScalarOnly(r) && Evaluable(r)
    decreases |a|
  {
    var n := |a| - 1;
    if n == 0 then CompareCondition(a[0], op, b[0])
    else OrCondition(StrictEmulation(a[..n], b[..n], op),
                     AndCondition(EqualEmulation(a[..n], b[..n]), CompareCondition(a[n], op, b[n])))
  }

  /** `(A, B) <= (1, 2)` emulated as `A < 1 OR (A = 1 AND B < 2) OR (A = 1 AND B = 2)`; `>=` likewise. */
  function OrEqualEmulation(a: seq<Field>, b: seq<Field>, op: Comparator): (r: Condition)
    requires |a| == |b| >= 1 && (op == Less || op == Greater)
    ensures ScalarOnly(r) && Evaluable(r)
  {
    OrCondition(StrictEmulation(a, b, op), EqualEmulation(a, b))
  }

  /** `A BETWEEN B AND C` emulated as `A >= B AND A <= C`. */
  function BetweenEmulation(a: seq<Field>, b: seq<Field>, c: seq<Field>): (r: Condition)
    requires |a| == |b| == |c| >= 1
    ensures ScalarOnly(r) && Evaluable(r)
  {
    AndCondition(OrEqualEmulation(a, b, Greater), OrEqualEmulation(a, c, Less))
  }

  /** `A BETWEEN SYMMETRIC B AND C` emulated as `(A >= B AND A <= C) OR (A >= C AND A <= B)`. */
  function BetweenSymmetricEmulation(a: seq<Field>, b: seq<Field>, c: seq<Field>): (r: Condition)
    requires |a| == |b| == |c| >= 1
    ensures ScalarOnly(r) && Evaluable(r)
  {
    OrCondition(BetweenEmulation(a, b, c), BetweenEmulation(a, c, b))
  }

  /** `A NOT BETWEEN B AND C` emulated as `A < B OR A > C`. */
  function NotBetweenEmulation(a: seq<Field>, b: seq<Field>, c: seq<Field>): (r: Condition)
    requires |a| == |b| == |c| >= 1
    ensures ScalarOnly(r) && Evaluable(r)
  {
    OrCondition(StrictEmulation(a, b, Less), StrictEmulation(a, c, Greater))
  }

  /** `A NOT BETWEEN SYMMETRIC B AND C` emulated as `(A < B OR A > C) AND (A < C OR A > B)`. */
  function NotBetweenSymmetricEmulation(a: seq<Field>, b: seq<Field>, c: seq<Field>): (r: Condition)
    requires |a| == |b| == |c| >= 1
    ensures ScalarOnly(r) && Evaluable(r)
  {
    AndCondition(NotBetweenEmulation(a, b, c), NotBetweenEmulation(a, c, b))
  }

  /**
   * `(A, B) IN ((1, 2), (3, 4))` emulated as `(A = 1 AND B = 2) OR (A = 3 AND B = 4)`.
   * An empty candidate list is FALSE, the neutral element of OR.
   */
  function InEmulation(a: seq<Field>, rows: seq<seq<Field>>): (r: Condition)
    requires |a| >= 1 && forall i :: 0 <= i < |rows| ==> |rows[i]| == |a|
    ensures ScalarOnly(r) && Evaluable(r)
  {
    if |rows| == 0 then FalseCondition
    else if |rows| == 1 then EqualEmulation(a, rows[0])
    else OrCondition(EqualEmulation(a, rows[0]), InEmulation(a, rows[1..]))
  }

  /** `(A, B) NOT IN ((1, 2), (3, 4))` emulated as `NOT((A = 1 AND B = 2) OR (A = 3 AND B = 4))`. */
  function NotInEmulation(a: seq<Field>, rows: seq<seq<Field>>): (r: Condition)
    requires |a| >= 1 && forall i :: 0 <= i < |rows| ==> |rows[i]| == |a|
    ensures ScalarOnly(r) && Evaluable(r)
  {
    NotCondition(InEmulation(a, rows))
  }

  /** `(A, B) OVERLAPS (C, D)` emulated as `(C <= B) AND (A <= D)`. */
  function OverlapsEmulation(a: Field, b: Field, c: Field, d: Field): (r: Condition)
    ensures ScalarOnly(r) && Evaluable(r)
  {
    AndCondition(CompareCondition(c, LessOrEqual, b), CompareCondition(a, LessOrEqual, d))
  }

  // ---------------------------------------------------------------------
  // Each emulation agrees with the row predicate it stands for
  // ---------------------------------------------------------------------

  /** One unfolding of the equality emulation of degree n+1. */
  lemma {:induction false} EqualEmulationUnfold(a: seq<Field>, b: seq<Field>, v: Valuation)
    requires |a| == |b| >= 2
    ensures Eval(EqualEmulation(a, b), v) ==
      (Eval(EqualEmulation(a[..|a| - 1], b[..|a| - 1]), v) && CompareValues(v(a[|a| - 1]), Equals, v(b[|a| - 1])))
  {
    var n := |a| - 1;
    var last := CompareCondition(a[n], Equals, b[n]);
    assert EqualEmulation(a, b) == AndCondition(EqualEmulation(a[..n], b[..n]), last);
    assert Eval(last, v) == CompareValues(v(a[n]), Equals, v(b[n]));
  }

  lemma {:induction false} EqualEmulationEval(a: seq<Field>, b: seq<Field>, v: Valuation)
    requires |a| == |b| >= 1
    ensures Eval(EqualEmulation(a, b), v) == Eval(RowCondition(a, b, Equals), v)
    ensures Eval(NotEqualEmulation(a, b), v) == Eval(RowCondition(a, b, NotEquals), v)
    decreases |a|
  {
    var n := |a| - 1;
    var (x, y) := (Vals(a, v), Vals(b, v));
    assert Eval(RowCondition(a, b, Equals), v) == (x == y);
    assert Eval(RowCondition(a, b, NotEquals), v) == (x != y);
    assert Eval(NotEqualEmulation(a, b), v) == !Eval(EqualEmulation(a, b), v);
    SnocEquality(x, y);
    if n > 0 {
      ValsPrefix(a, n, v);
      ValsPrefix(b, n, v);
      EqualEmulationUnfold(a, b, v);
      EqualEmulationEval(a[..n], b[..n], v);
      assert Eval(RowCondition(a[..n], b[..n], Equals), v) == (x[..n] == y[..n]);
    } else {
      assert x == [v(a[0])] && y == [v(b[0])];
    }
  }

  /** A strict row comparison of degree n+1, in terms of the first n components and the last one. */
  lemma StrictStep(x: seq<int>, y: seq<int>, op: Comparator)
    requires |x| == |y| >= 1 && (op == Less || op == Greater)
    ensures CompareRows(x, op, y) ==
      if |x| == 1 then CompareValues(x[0], op, y[0])
      else (CompareRows(x[..|x| - 1], op, y[..|x| - 1])
            || (x[..|x| - 1] == y[..|x| - 1] && CompareValues(x[|x| - 1], op, y[|x| - 1])))
  {
    var n := |x| - 1;
    LexLessSnoc(x, y);
    LexLessSnoc(y, x);
    if n == 0 {
      assert x[..0] == y[..0];
      assert !LexLess(x[..0], y[..0]) && !LexLess(y[..0], x[..0]);
    }
  }

  /** One unfolding of the strict emulation of degree n+1. */
  lemma StrictEmulationUnfold(a: seq<Field>, b: seq<Field>, op: Comparator, v: Valuation)
    requires |a| == |b| >= 2 && (op == Less || op == Greater)
    ensures Eval(StrictEmulation(a, b, op), v) ==
      (Eval(StrictEmulation(a[..|a| - 1], b[..|a| - 1], op), v)
       || (Eval(EqualEmulation(a[..|a| - 1], b[..|a| - 1]), v) && CompareValues(v(a[|a| - 1]), op, v(b[|a| - 1]))))
  {
    var n := |a| - 1;
    var last := CompareCondition(a[n], op, b[n]);
    assert StrictEmulation(a, b, op) ==
      OrCondition(StrictEmulation(a[..n], b[..n], op), AndCondition(EqualEmulation(a[..n], b[..n]), last));
    assert Eval(last, v) == CompareValues(v(a[n]), op, v(b[n]));
  }

  lemma {:induction false} StrictEmulationEval(a: seq<Field>, b: seq<Field>, op: Comparator, v: Valuation)
    requires |a| == |b| >= 1 && (op == Less || op == Greater)
    ensures Eval(StrictEmulation(a, b, op), v) == Eval(RowCondition(a, b, op), v)
    decreases |a|
  {
    var n := |a| - 1;
    var (x, y) := (Vals(a, v), Vals(b, v));
    assert Eval(RowCondition(a, b, op), v) == CompareRows(x, op, y);
    StrictStep(x, y, op);
    if n > 0 {
      ValsPrefix(a, n, v);
      ValsPrefix(b, n, v);
      StrictEmulationUnfold(a, b, op, v);
      StrictEmulationEval(a[..n], b[..n], op, v);
      EqualEmulationEval(a[..n], b[..n], v);
    }
  }

  lemma OrEqualEmulationEval(a: seq<Field>, b: seq<Field>, op: Comparator, v: Valuation)
    requires |a| == |b| >= 1 && (op == Less || op == Greater)
    ensures Eval(OrEqualEmulation(a, b, op), v) ==
      Eval(RowCondition(a, b, if op == Less then LessOrEqual else GreaterOrEqual), v)
  {
    var (x, y) := (Vals(a, v), Vals(b, v));
    StrictEmulationEval(a, b, op, v);
    EqualEmulationEval(a, b, v);
    assert Eval(OrEqualEmulation(a, b, op), v) == (Eval(StrictEmulation(a, b, op), v) || Eval(EqualEmulation(a, b), v));
    assert Eval(RowCondition(a, b, if op == Less then LessOrEqual else GreaterOrEqual), v)
      == (CompareRows(x, op, y) || x == y);
  }

  lemma {:induction false} BetweenEmulationEval(a: seq<Field>, b: seq<Field>, c: seq<Field>, v: Valuation)
    requires |a| == |b| == |c| >= 1
    ensures Eval(BetweenEmulation(a, b, c), v) == Eval(RowBetweenCondition(a, b, c, false, false), v)
  {
    OrEqualEmulationEval(a, b, Greater, v);
    OrEqualEmulationEval(a, c, Less, v);
  }

  /** The NOT BETWEEN emulation in terms of the tuples' values. */
  lemma NotBetweenEmulationValues(a: seq<Field>, b: seq<Field>, c: seq<Field>, v: Valuation)
    requires |a| == |b| == |c| >= 1
    ensures Eval(NotBetweenEmulation(a, b, c), v) == (LexLess(Vals(a, v), Vals(b, v)) || LexLess(Vals(c, v), Vals(a, v)))
  {
    StrictEmulationEval(a, b, Less, v);
    StrictEmulationEval(a, c, Greater, v);
  }

  /** The BETWEEN emulation in terms of the tuples' values. */
  lemma BetweenEmulationValues(a: seq<Field>, b: seq<Field>, c: seq<Field>, v: Valuation)
    requires |a| == |b| == |c| >= 1
    ensures Eval(BetweenEmulation(a, b, c), v) == InRange(Vals(a, v), Vals(b, v), Vals(c, v))
  {
    BetweenEmulationEval(a, b, c, v);
  }

  /** The symmetric emulation agrees with BETWEEN SYMMETRIC, which does not depend on the order of its bounds. */
  lemma {:induction false} BetweenSymmetricEmulationEval(a: seq<Field>, b: seq<Field>, c: seq<Field>, v: Valuation)
    requires |a| == |b| == |c| >= 1
    ensures Eval(BetweenSymmetricEmulation(a, b, c), v) == Eval(RowBetweenCondition(a, b, c, false, true), v)
    ensures forall not: bool :: Eval(RowBetweenCondition(a, b, c, not, true), v) == Eval(RowBetweenCondition(a, c, b, not, true), v)
  {
    BetweenEmulationValues(a, b, c, v);
    BetweenEmulationValues(a, c, b, v);
  }

  /** A tuple lies outside [lo, hi] iff it is below lo or above hi. */
  lemma OutOfRange(x: seq<int>, lo: seq<int>, hi: seq<int>)
    requires |x| == |lo| == |hi|
    ensures !InRange(x, lo, hi) <==> LexLess(x, lo) || LexLess(hi, x)
  {
    LexTrichotomy(x, lo);
    LexTrichotomy(x, hi);
  }

  /** `A < B OR A > C` is the negation of `A >= B AND A <= C`. */
  lemma {:induction false} NotBetweenEmulationEval(a: seq<Field>, b: seq<Field>, c: seq<Field>, v: Valuation)
    requires |a| == |b| == |c| >= 1
    ensures Eval(NotBetweenEmulation(a, b, c), v) == Eval(RowBetweenCondition(a, b, c, true, false), v)
    ensures Eval(NotBetweenEmulation(a, b, c), v) == !Eval(BetweenEmulation(a, b, c), v)
  {
    NotBetweenEmulationValues(a, b, c, v);
    BetweenEmulationValues(a, b, c, v);
    OutOfRange(Vals(a, v), Vals(b, v), Vals(c, v));
  }

  /** `(A < B OR A > C) AND (A < C OR A > B)` is the negation of BETWEEN SYMMETRIC. */
  lemma {:induction false} NotBetweenSymmetricEmulationEval(a: seq<Field>, b: seq<Field>, c: seq<Field>, v: Valuation)
    requires |a| == |b| == |c| >= 1
    ensures Eval(NotBetweenSymmetricEmulation(a, b, c), v) == Eval(RowBetweenCondition(a, b, c, true, true), v)
    ensures Eval(NotBetweenSymmetricEmulation(a, b, c), v) == !Eval(BetweenSymmetricEmulation(a, b, c), v)
  {
    var x, y, z := Vals(a, v), Vals(b, v), Vals(c, v);
    NotBetweenEmulationValues(a, b, c, v);
    NotBetweenEmulationValues(a, c, b, v);
    BetweenEmulationValues(a, b, c, v);
    BetweenEmulationValues(a, c, b, v);
    OutOfRange(x, y, z);
    OutOfRange(x, z, y);
  }

  /** Some candidate row has the values x. */
  predicate Found(rows: seq<seq<Field>>, x: seq<int>, v: Valuation)
  {
    exists i :: 0 <= i < |rows| && Vals(rows[i], v) == x
  }

  lemma FoundCons(rows: seq<seq<Field>>, x: seq<int>, v: Valuation)
    requires |rows| >= 1
    ensures Found(rows, x, v) <==> Vals(rows[0], v) == x || Found(rows[1..], x, v)
  {
    if Found(rows, x, v) {
      var i :| 0 <= i < |rows| && Vals(rows[i], v) == x;
      if i > 0 {
        assert rows[1..][i - 1] == rows[i];
      }
    }
    if Found(rows[1..], x, v) {
      var i :| 0 <= i < |rows| - 1 && Vals(rows[1..][i], v) == x;
      assert rows[1..][i] == rows[i + 1];
    }
  }

  /** Row IN evaluates to whether some candidate has the row's values. */
  lemma EvalIn(a: seq<Field>, rows: seq<seq<Field>>, v: Valuation)
    requires |a| >= 1 && forall i :: 0 <= i < |rows| ==> |rows[i]| == |a|
    ensures Eval(RowInCondition(a, rows, false), v) == Found(rows, Vals(a, v), v)
    ensures Eval(RowInCondition(a, rows, true), v) == !Found(rows, Vals(a, v), v)
  {
  }

  /** One unfolding of the IN emulation. */
  lemma InEmulationUnfold(a: seq<Field>, rows: seq<seq<Field>>, v: Valuation)
    requires |a| >= 1 && |rows| >= 1 && forall i :: 0 <= i < |rows| ==> |rows[i]| == |a|
    ensures Eval(InEmulation(a, rows), v) ==
      (Eval(EqualEmulation(a, rows[0]), v) || (|rows| > 1 && Eval(InEmulation(a, rows[1..]), v)))
  {
    if |rows| > 1 {
      assert InEmulation(a, rows) == OrCondition(EqualEmulation(a, rows[0]), InEmulation(a, rows[1..]));
    }
  }

  lemma {:induction false} InEmulationEval(a: seq<Field>, rows: seq<seq<Field>>, v: Valuation)
    requires |a| >= 1 && forall i :: 0 <= i < |rows| ==> |rows[i]| == |a|
    ensures Eval(InEmulation(a, rows), v) == Eval(RowInCondition(a, rows, false), v)
    ensures Eval(NotInEmulation(a, rows), v) == Eval(RowInCondition(a, rows, true), v)
    decreases |rows|
  {
    EvalIn(a, rows, v);
    if |rows| >= 1 {
      InEmulationUnfold(a, rows, v);
      EqualEmulationEval(a, rows[0], v);
      FoundCons(rows, Vals(a, v), v);
      if |rows| > 1 {
        InEmulationEval(a, rows[1..], v);
        EvalIn(a, rows[1..], v);
      } else {
        assert !Found(rows[1..], Vals(a, v), v);
      }
    }
  }

  /** A point that lies in the closed interval [lo, hi]. */
  predicate InInterval(t: int, lo: int, hi: int)
  {
    lo <= t <= hi
  }

  /** For ordered bounds, the OVERLAPS emulation holds iff the closed intervals [A, B] and [C, D] share a point. */
  lemma OverlapsEmulationEval(a: Field, b: Field, c: Field, d: Field, v: Valuation)
    requires v(a) <= v(b) && v(c) <= v(d)
    ensures Eval(OverlapsEmulation(a, b, c, d), v) <==>
      exists t :: InInterval(t, v(a), v(b)) && InInterval(t, v(c), v(d))
  {
    if Eval(OverlapsEmulation(a, b, c, d), v) {
      assert Eval(CompareCondition(c, LessOrEqual, b), v) && Eval(CompareCondition(a, LessOrEqual, d), v);
      var t := if v(a) <= v(c) then v(c) else v(a);
      assert InInterval(t, v(a), v(b)) && InInterval(t, v(c), v(d));
    }
  }
}
