/**
 * The rendering and binding context that query parts are visited with.
 * A render context collects output tokens; a bind context collects the
 * values bound to a statement. Both carry the dialect and the current
 * parameter rendering mode.
 */
module Rendering {
  import opened Qom

  class Context {
    const dialect: Dialect
    /** `ctx instanceof RenderContext`: true while rendering SQL, false while binding values. */
    const rendering: bool
    var paramType: ParamType
    var tokens: seq<Token>
    var binds: seq<Field>

    constructor (dialect: Dialect, rendering: bool, paramType: ParamType)
      ensures this.dialect == dialect && this.rendering == rendering && this.paramType == paramType
      ensures tokens == [] && binds == []
    {
      this.dialect := dialect;
      this.rendering := rendering;
      this.paramType := paramType;
      tokens := [];
      binds := [];
    }

    /** Emits `ts` in order, as a chain of `ctx.sql`, `ctx.visit` and formatting calls does. */
    method Append(ts: seq<Token>)
      modifies this
      ensures tokens == old(tokens) + ts
      ensures paramType == old(paramType) && binds == old(binds)
    {
      tokens := tokens + ts;
    }

    /** Visits a bind value while binding: the value is bound to the next parameter. */
    method Bind(f: Field)
      modifies this
      ensures binds == old(binds) + [f]
      ensures paramType == old(paramType) && tokens == old(tokens)
    {
      binds := binds + [f];
    }
  }

  /** Concatenation of token sequences is associative. */
  lemma AppendAssoc(a: seq<Token>, b: seq<Token>, c: seq<Token>)
    ensures a + (b + c) == (a + b) + c
  {
  }
}
