/**
 * `AlterTypeImpl`: the `ALTER TYPE` statement. The DSL steps set one slot
 * each on the statement in place; rendering picks a single action by a
 * fixed priority; the query object model withers build a new statement with
 * one slot replaced.
 */
module AlterType {
  import opened Wrappers
  import opened Qom
  import opened Rendering

  /** The configuration a query is attached to; only its identity is modelled. */
  datatype Configuration = Configuration(id: nat)

  /** The six slots of the statement; `None` is a `null` slot. */
  datatype AlterTypeState = AlterTypeState(
    typeName: Name,
    renameTo: Option<Name>,
    setSchema: Option<Schema>,
    addValue: Option<Field>,
    renameValue: Option<Field>,
    renameValueTo: Option<Field>)

  /** The action clause rendering chooses. */
  datatype Action = RenameTypeAction | SetSchemaAction | AddValueAction | RenameValueAction | NoAction

  /** The first slot set, in the priority order RENAME TO, SET SCHEMA, ADD VALUE, RENAME VALUE. */
  function ChosenAction(s: AlterTypeState): (a: Action)
    ensures a == RenameTypeAction <==> s.renameTo.Some?
    ensures a == SetSchemaAction <==> s.renameTo.None? && s.setSchema.Some?
    ensures a == AddValueAction <==> s.renameTo.None? && s.setSchema.None? && s.addValue.Some?
    ensures a == RenameValueAction <==>
      s.renameTo.None? && s.setSchema.None? && s.addValue.None? && s.renameValue.Some?
  {
    if s.renameTo.Some? then RenameTypeAction
    else if s.setSchema.Some? then SetSchemaAction
    else if s.addValue.Some? then AddValueAction
    else if s.renameValue.Some? then RenameValueAction
    else NoAction
  }

  /** `ALTER TYPE <type> `. */
  function PrefixTokens(s: AlterTypeState): seq<Token>
  {
    [Kw(K_ALTER), Sql(" "), Kw(K_TYPE), Sql(" "), Visit(NamePart(s.typeName)), Sql(" ")]
  }

  /** `ctx.visit(part)` of a slot that may be `null`; visiting `null` emits nothing. */
  function VisitField(f: Option<Field>): seq<Token>
  {
    if f.Some? then [Visit(FieldPart(f.value))] else []
  }

  /** The tokens of the chosen action. */
  function ActionTokens(s: AlterTypeState): seq<Token>
  {
    match ChosenAction(s)
    case RenameTypeAction => [Kw(K_RENAME_TO), Sql(" "), Visit(UnqualifiedNamePart(s.renameTo.value))]
    case SetSchemaAction => [Kw(K_SET), Sql(" "), Kw(K_SCHEMA), Sql(" "), Visit(SchemaPart(s.setSchema.value))]
    case AddValueAction => [Kw(K_ADD), Sql(" "), Kw(K_VALUE), Sql(" "), Visit(FieldPart(s.addValue.value))]
    case RenameValueAction =>
      [Kw(K_RENAME), Sql(" "), Kw(K_VALUE), Sql(" "), Visit(FieldPart(s.renameValue.value)), Sql(" "), Kw(K_TO), Sql(" ")]
        + VisitField(s.renameValueTo)
    case NoAction => []
  }

  /** The output of `accept`. */
  function AcceptTokens(s: AlterTypeState): seq<Token>
  {
    PrefixTokens(s) + ActionTokens(s)
  }

  /** Rendering always starts with `ALTER TYPE <type> `. */
  lemma RenderingStartsWithPrefix(s: AlterTypeState)
    ensures |AcceptTokens(s)| >= 6
    ensures AcceptTokens(s)[..6] == [Kw(K_ALTER), Sql(" "), Kw(K_TYPE), Sql(" "), Visit(NamePart(s.typeName)), Sql(" ")]
  {
  }

  /**
   * Exactly one action is rendered, chosen by priority: each action keyword
   * appears iff its slot is the first one set, and with no slot set only the
   * prefix is rendered.
   */
  lemma ActionByPriority(s: AlterTypeState)
    ensures Kw(K_RENAME_TO) in AcceptTokens(s) <==> s.renameTo.Some?
    ensures Kw(K_SCHEMA) in AcceptTokens(s) <==> s.renameTo.None? && s.setSchema.Some?
    ensures Kw(K_ADD) in AcceptTokens(s) <==> s.renameTo.None? && s.setSchema.None? && s.addValue.Some?
    ensures Kw(K_RENAME) in AcceptTokens(s) <==>
      s.renameTo.None? && s.setSchema.None? && s.addValue.None? && s.renameValue.Some?
    ensures ChosenAction(s) == NoAction <==> AcceptTokens(s) == PrefixTokens(s)
  {
    ActionKeywords(s);
  }

  /** Each action keyword appears in the rendering iff its action is the chosen one. */
  lemma ActionKeywords(s: AlterTypeState)
    ensures Kw(K_RENAME_TO) in AcceptTokens(s) <==> ChosenAction(s) == RenameTypeAction
    ensures Kw(K_SCHEMA) in AcceptTokens(s) <==> ChosenAction(s) == SetSchemaAction
    ensures Kw(K_ADD) in AcceptTokens(s) <==> ChosenAction(s) == AddValueAction
    ensures Kw(K_RENAME) in AcceptTokens(s) <==> ChosenAction(s) == RenameValueAction
  {
    var t := AcceptTokens(s);
    assert t == PrefixTokens(s) + ActionTokens(s);
    match ChosenAction(s)
    case RenameTypeAction =>
    case SetSchemaAction =>
    case AddValueAction =>
    case RenameValueAction =>
      assert Kw(K_SCHEMA) !in VisitField(s.renameValueTo) && Kw(K_ADD) !in VisitField(s.renameValueTo);
      assert Kw(K_RENAME_TO) !in VisitField(s.renameValueTo);
    case NoAction =>
  }

  /** `renameValueTo` is rendered only as the target of RENAME VALUE … TO; on its own it renders nothing. */
  lemma RenameValueToOnlyWithRenameValue(s: AlterTypeState)
    ensures Kw(K_TO) in AcceptTokens(s) <==> ChosenAction(s) == RenameValueAction
    ensures s.renameValueTo.Some? && ChosenAction(s) == RenameValueAction ==>
      AcceptTokens(s)[|AcceptTokens(s)| - 1] == Visit(FieldPart(s.renameValueTo.value))
    ensures s.renameValueTo.Some? && s.renameTo.None? && s.setSchema.None? && s.addValue.None? && s.renameValue.None? ==>
      AcceptTokens(s) == PrefixTokens(s)
  {
  }

  /** `Tools.field(String)`: a bind value whose type `DSL.val` infers. */
  function StringField(s: string): Field
  {
    Val(Some(StrV(s)), Inferred)
  }

  class AlterTypeImpl {
    const configuration: Configuration
    const typeName: Name
    var renameTo: Option<Name>
    var setSchema: Option<Schema>
    var addValue: Option<Field>
    var renameValue: Option<Field>
    var renameValueTo: Option<Field>

    function State(): AlterTypeState
      reads this
    {
      AlterTypeState(typeName, renameTo, setSchema, addValue, renameValue, renameValueTo)
    }

    /** The six-slot constructor. */
    constructor (configuration: Configuration, s: AlterTypeState)
      ensures this.configuration == configuration && State() == s
    {
      this.configuration := configuration;
      typeName := s.typeName;
      renameTo := s.renameTo;
      setSchema := s.setSchema;
      addValue := s.addValue;
      renameValue := s.renameValue;
      renameValueTo := s.renameValueTo;
    }

    /** `new AlterTypeImpl(configuration, type)`: every other slot is `null`. */
    static method Create(configuration: Configuration, typeName: Name) returns (r: AlterTypeImpl)
      ensures fresh(r) && r.configuration == configuration
      ensures r.State() == AlterTypeState(typeName, None, None, None, None, None)
    {
      r := new AlterTypeImpl(configuration, AlterTypeState(typeName, None, None, None, None, None));
    }

    // DSL steps: each assigns its own slot and returns this statement.

    /** `renameTo(Name)`: a `null` argument clears the slot. */
    method RenameTo(n: Option<Name>) returns (r: AlterTypeImpl)
      modifies this
      ensures r == this && State() == old(State()).(renameTo := n)
    {
      renameTo := n;
      r := this;
    }

    /** `renameTo(String)` is `renameTo(DSL.name(s))`. */
    method RenameToString(s: string) returns (r: AlterTypeImpl)
      modifies this
      ensures r == this && State() == old(State()).(renameTo := Some(DslName(s)))
    {
      r := RenameTo(Some(DslName(s)));
    }

    /** `setSchema(Schema)`: a `null` argument clears the slot. */
    method SetSchema(schema: Option<Schema>) returns (r: AlterTypeImpl)
      modifies this
      ensures r == this && State() == old(State()).(setSchema := schema)
    {
      setSchema := schema;
      r := this;
    }

    /** `setSchema(Name)` is `setSchema(DSL.schema(name))`. */
    method SetSchemaName(n: Name) returns (r: AlterTypeImpl)
      modifies this
      ensures r == this && State() == old(State()).(setSchema := Some(Schema(n)))
    {
      r := SetSchema(Some(Schema(n)));
    }

    /** `setSchema(String)` is `setSchema(DSL.schema(DSL.name(s)))`. */
    method SetSchemaString(s: string) returns (r: AlterTypeImpl)
      modifies this
      ensures r == this && State() == old(State()).(setSchema := Some(Schema(DslName(s))))
    {
      r := SetSchemaName(DslName(s));
    }

    /** `addValue(Field)`: a `null` argument clears the slot. */
    method AddValue(f: Option<Field>) returns (r: AlterTypeImpl)
      modifies this
      ensures r == this && State() == old(State()).(addValue := f)
    {
      addValue := f;
      r := this;
    }

    /** `addValue(String)` is `addValue(Tools.field(s))`. */
    method AddValueString(s: string) returns (r: AlterTypeImpl)
      modifies this
      ensures r == this && State() == old(State()).(addValue := Some(StringField(s)))
    {
      r := AddValue(Some(StringField(s)));
    }

    /** `renameValue(Field)`: a `null` argument clears the slot. */
    method RenameValue(f: Option<Field>) returns (r: AlterTypeImpl)
      modifies this
      ensures r == this && State() == old(State()).(renameValue := f)
    {
      renameValue := f;
      r := this;
    }

    /** `renameValue(String)` is `renameValue(Tools.field(s))`. */
    method RenameValueString(s: string) returns (r: AlterTypeImpl)
      modifies this
      ensures r == this && State() == old(State()).(renameValue := Some(StringField(s)))
    {
      r := RenameValue(Some(StringField(s)));
    }

    /** `to(Field)`: the target of RENAME VALUE; a `null` argument clears the slot. */
    method To(f: Option<Field>) returns (r: AlterTypeImpl)
      modifies this
      ensures r == this && State() == old(State()).(renameValueTo := f)
    {
      renameValueTo := f;
      r := this;
    }

    /** `to(String)` is `to(Tools.field(s))`. */
    method ToString(s: string) returns (r: AlterTypeImpl)
      modifies this
      ensures r == this && State() == old(State()).(renameValueTo := Some(StringField(s)))
    {
      r := To(Some(StringField(s)));
    }

    /** `accept(ctx)`: the prefix, then the chosen action. */
    method Accept(ctx: Context)
      modifies ctx
      ensures ctx.tokens == old(ctx.tokens) + AcceptTokens(State())
      ensures ctx.paramType == old(ctx.paramType) && ctx.binds == old(ctx.binds)
    {
      ctx.Append([Kw(K_ALTER), Sql(" "), Kw(K_TYPE), Sql(" "), Visit(NamePart(typeName)), Sql(" ")]);
      if renameTo.Some? {
        ctx.Append([Kw(K_RENAME_TO), Sql(" "), Visit(UnqualifiedNamePart(renameTo.value))]);
      } else if setSchema.Some? {
        ctx.Append([Kw(K_SET), Sql(" "), Kw(K_SCHEMA), Sql(" "), Visit(SchemaPart(setSchema.value))]);
      } else if addValue.Some? {
        ctx.Append([Kw(K_ADD), Sql(" "), Kw(K_VALUE), Sql(" "), Visit(FieldPart(addValue.value))]);
      } else if renameValue.Some? {
        ctx.Append([Kw(K_RENAME), Sql(" "), Kw(K_VALUE), Sql(" "), Visit(FieldPart(renameValue.value)), Sql(" "), Kw(K_TO), Sql(" ")]);
        ctx.Append(VisitField(renameValueTo));
      }
    }

    // Query object model: the `$x()` accessors and the `$x(newValue)` withers. Each wither
    // builds a new statement whose accessor for its slot returns the new value and whose other
    // accessors return what this statement's return.

    function QType(): Name reads this { typeName }
    function QRenameTo(): Option<Name> reads this { renameTo }
    function QSetSchema(): Option<Schema> reads this { setSchema }
    function QAddValue(): Option<Field> reads this { addValue }
    function QRenameValue(): Option<Field> reads this { renameValue }
    function QRenameValueTo(): Option<Field> reads this { renameValueTo }

    /** `$constructor().apply(…)`: a new statement on the same configuration. */
    method Construct(s: AlterTypeState) returns (r: AlterTypeImpl)
      ensures fresh(r) && r.configuration == configuration && r.State() == s
    {
      r := new AlterTypeImpl(configuration, s);
    }

    method QWithType(n: Name) returns (r: AlterTypeImpl)
      ensures fresh(r) && r.configuration == configuration && r.State() == State().(typeName := n)
      ensures r.QType() == n
      ensures n == QType() ==> r.State() == State()
      ensures r.QRenameTo() == QRenameTo() && r.QSetSchema() == QSetSchema() && r.QAddValue() == QAddValue() && r.QRenameValue() == QRenameValue() && r.QRenameValueTo() == QRenameValueTo()
    {
      r := Construct(AlterTypeState(n, QRenameTo(), QSetSchema(), QAddValue(), QRenameValue(), QRenameValueTo()));
    }

    method QWithRenameTo(n: Option<Name>) returns (r: AlterTypeImpl)
      ensures fresh(r) && r.configuration == configuration && r.State() == State().(renameTo := n)
      ensures r.QRenameTo() == n
      ensures n == QRenameTo() ==> r.State() == State()
      ensures r.QType() == QType() && r.QSetSchema() == QSetSchema() && r.QAddValue() == QAddValue() && r.QRenameValue() == QRenameValue() && r.QRenameValueTo() == QRenameValueTo()
    {
      r := Construct(AlterTypeState(QType(), n, QSetSchema(), QAddValue(), QRenameValue(), QRenameValueTo()));
    }

    method QWithSetSchema(s: Option<Schema>) returns (r: AlterTypeImpl)
      ensures fresh(r) && r.configuration == configuration && r.State() == State().(setSchema := s)
      ensures r.QSetSchema() == s
      ensures s == QSetSchema() ==> r.State() == State()
      ensures r.QType() == QType() && r.QRenameTo() == QRenameTo() && r.QAddValue() == QAddValue() && r.QRenameValue() == QRenameValue() && r.QRenameValueTo() == QRenameValueTo()
    {
      r := Construct(AlterTypeState(QType(), QRenameTo(), s, QAddValue(), QRenameValue(), QRenameValueTo()));
    }

    method QWithAddValue(f: Option<Field>) returns (r: AlterTypeImpl)
      ensures fresh(r) && r.configuration == configuration && r.State() == State().(addValue := f)
      ensures r.QAddValue() == f
      ensures f == QAddValue() ==> r.State() == State()
      ensures r.QType() == QType() && r.QRenameTo() == QRenameTo() && r.QSetSchema() == QSetSchema() && r.QRenameValue() == QRenameValue() && r.QRenameValueTo() == QRenameValueTo()
    {
      r := Construct(AlterTypeState(QType(), QRenameTo(), QSetSchema(), f, QRenameValue(), QRenameValueTo()));
    }

    method QWithRenameValue(f: Option<Field>) returns (r: AlterTypeImpl)
      ensures fresh(r) && r.configuration == configuration && r.State() == State().(renameValue := f)
      ensures r.QRenameValue() == f
      ensures f == QRenameValue() ==> r.State() == State()
      ensures r.QType() == QType() && r.QRenameTo() == QRenameTo() && r.QSetSchema() == QSetSchema() && r.QAddValue() == QAddValue() && r.QRenameValueTo() == QRenameValueTo()
    {
      r := Construct(AlterTypeState(QType(), QRenameTo(), QSetSchema(), QAddValue(), f, QRenameValueTo()));
    }

    method QWithRenameValueTo(f: Option<Field>) returns (r: AlterTypeImpl)
      ensures fresh(r) && r.configuration == configuration && r.State() == State().(renameValueTo := f)
      ensures r.QRenameValueTo() == f
      ensures f == QRenameValueTo() ==> r.State() == State()
      ensures r.QType() == QType() && r.QRenameTo() == QRenameTo() && r.QSetSchema() == QSetSchema() && r.QAddValue() == QAddValue() && r.QRenameValue() == QRenameValue()
    {
      r := Construct(AlterTypeState(QType(), QRenameTo(), QSetSchema(), QAddValue(), QRenameValue(), f));
    }
  }
}
