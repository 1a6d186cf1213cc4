/**
 * A reference evaluator for the string and integer expressions that the
 * `POSITION` rendering builds: 1-based `POSITION`, `SUBSTRING` from a start
 * position, `LOCATE` with a start position, simple `CASE`, `+` and `-`.
 * Leaves (columns, bind values, typed NULLs) take their values from an
 * environment; NULL is not modelled.
 */
module SqlEval {
  import opened Wrappers
  import opened Qom

  /** The values of the leaves an expression reads. */
  datatype Env = Env(str: Field -> string, num: Field -> int)

  /** `needle` occurs in `hay` at the 0-based index k. */
  predicate MatchAt(needle: string, hay: string, k: nat)
  {
    k + |needle| <= |hay| && hay[k..k + |needle|] == needle
  }

  /**
   * The 1-based position of the first occurrence of `needle` in `hay` at the
   * 0-based index i or later, or 0 when there is none.
   */
  function IndexFrom(needle: string, hay: string, i: nat): (r: nat)
    ensures r != 0 ==> i < r && MatchAt(needle, hay, r - 1)
    ensures forall k: nat :: i <= k && (r == 0 || k < r - 1) ==> !MatchAt(needle, hay, k)
    decreases |hay| - i
  {
    if i + |needle| > |hay| then 0
    else if hay[i..i + |needle|] == needle then i + 1
    else IndexFrom(needle, hay, i + 1)
  }

  /** `POSITION(needle IN hay)`. */
  function SqlPosition(needle: string, hay: string): nat
  {
    IndexFrom(needle, hay, 0)
  }

  /** `SUBSTRING(s, start)`: the characters from the 1-based position `start` on. */
  function SqlSubstring(s: string, start: int): string
  {
    if start <= 1 then s
    else if start - 1 > |s| then []
    else s[start - 1..]
  }

  /** `LOCATE(needle, hay, start)`: the first occurrence at the 1-based position `start` or later, or 0. */
  function LocateFrom(needle: string, hay: string, start: int): nat
  {
    if start <= 1 then IndexFrom(needle, hay, 0) else IndexFrom(needle, hay, start - 1)
  }

  function EvalNum(f: Field, e: Env): int
    decreases f
  {
    match f
    case Inline(n) => n
    case One => 1
    case PositionNode(i, s, st) =>
      if st.None? then SqlPosition(EvalStr(s, e), EvalStr(i, e))
      else LocateFrom(EvalStr(s, e), EvalStr(i, e), EvalNum(st.value, e))
    case CaseNode(op, w, r, o) => if EvalNum(op, e) == EvalNum(w, e) then EvalNum(r, e) else EvalNum(o, e)
    case AddNode(l, r) => EvalNum(l, e) + EvalNum(r, e)
    case SubNode(l, r) => EvalNum(l, e) - EvalNum(r, e)
    case _ => e.num(f)
  }

  function EvalStr(f: Field, e: Env): string
    decreases f
  {
    match f
    case SubstringNode(s, start) => SqlSubstring(EvalStr(s, e), EvalNum(start, e))
    case _ => e.str(f)
  }

  /** Searching a suffix `hay[k..]` is searching `hay` from k, with positions shifted by k. */
  lemma {:induction false} IndexFromSuffix(needle: string, hay: string, k: nat, j: nat)
    requires k <= |hay|
    ensures IndexFrom(needle, hay[k..], j) ==
      (if IndexFrom(needle, hay, k + j) == 0 then 0 else IndexFrom(needle, hay, k + j) - k)
    decreases |hay| - k - j
  {
    if j + |needle| <= |hay| - k {
      assert hay[k..][j..j + |needle|] == hay[k + j..k + j + |needle|];
      if hay[k + j..k + j + |needle|] != needle {
        IndexFromSuffix(needle, hay, k, j + 1);
      }
    }
  }

  /**
   * The start-index emulation `CASE POSITION(needle IN SUBSTRING(hay, start))
   * WHEN 0 THEN 0 ELSE POSITION(…) + (start - 1)` is `LOCATE(needle, hay, start)`
   * for every start position from 1 on (for an empty needle, up to one past
   * the end of `hay`).
   */
  lemma EmulationMeansLocate(needle: string, hay: string, start: int)
    requires 1 <= start && (|needle| > 0 || start <= |hay| + 1)
    ensures (var p := SqlPosition(needle, SqlSubstring(hay, start)); if p == 0 then 0 else p + (start - 1))
      == LocateFrom(needle, hay, start)
  {
    var k: nat := start - 1;
    assert LocateFrom(needle, hay, start) == IndexFrom(needle, hay, k);
    if k <= |hay| {
      assert SqlSubstring(hay, start) == hay[k..];
      IndexFromSuffix(needle, hay, k, 0);
    } else {
      assert SqlSubstring(hay, start) == [];
      assert IndexFrom(needle, [], 0) == 0;
      assert IndexFrom(needle, hay, k) == 0;
    }
  }
}
