/**
 * `Upper`: the `UPPER` function over one string argument. It renders as a
 * plain function call; its wither rebuilds the node through the
 * constructor.
 */
module Upper {
  import opened Wrappers
  import opened Qom
  import Function

  type UpperField = f: Field | f.UpperNode? witness UpperNode(One)

  const N_UPPER: Name := UnquotedName("upper")

  /** `new Upper(string)`: a `null` argument becomes a typed VARCHAR NULL. */
  function Make(s: Option<Field>): (u: UpperField)
  {
    UpperNode(NullSafe(s, VARCHAR))
  }

  /** `accept`: `function(N_UPPER, getDataType(), string)` on every dialect. */
  function AcceptTokens(u: UpperField, d: Dialect): seq<Token>
  {
    [Visit(FieldPart(Function.MakeNamed(N_UPPER, FieldType(u), [u.str])))]
  }

  /** The rendering is one call of `upper`, typed VARCHAR, whose only argument is the node's argument. */
  lemma AcceptIsUpperCall(u: UpperField, d: Dialect)
    ensures |AcceptTokens(u, d)| == 1 && AcceptTokens(u, d)[0].Visit? && AcceptTokens(u, d)[0].part.FieldPart?
    ensures var f := AcceptTokens(u, d)[0].part.field;
      f.FunctionNode? && f.name == N_UPPER && f.dataType == VARCHAR && Function.Args(f) == [u.str]
    ensures AcceptTokens(u, d) == AcceptTokens(u, Default)
  {
  }

  /**
   * `$string(newValue)`: `$constructor().apply(newValue)`. The new node's
   * argument is the new value, a typed VARCHAR NULL for `null`, and
   * replacing the argument by itself gives back an equal node.
   */
  function WithString(u: UpperField, x: Option<Field>): (r: UpperField)
    ensures r.str == NullSafe(x, VARCHAR)
    ensures x.None? ==> r.str == NullOf(VARCHAR)
    ensures x == Some(u.str) ==> r == u
  {
    Make(x)
  }

  /** `equals`: the arguments are equal. */
  predicate Equals(u: UpperField, v: UpperField)
  {
    u.str == v.str
  }

  lemma EqualsIsIdentity(u: UpperField, v: UpperField)
    ensures Equals(u, v) <==> u == v
  {
  }
}
