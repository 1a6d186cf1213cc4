/**
 * `Function`: a plain SQL function call `name(arguments…)`. Its constructors
 * store a name, a data type, the schema-mapping flag and the argument list;
 * equality looks at the qualified name and the arguments only.
 */
module Function {
  import opened Qom

  type FunctionField = f: Field | f.FunctionNode? witness FunctionNode(Name([], DefaultQuoting), Inferred, true, [])

  /** `new Function(name, type, applySchemaMapping, arguments…)`: every slot kept as given. */
  function MakeMapped(name: Name, t: DataType, applySchemaMapping: bool, arguments: seq<Field>): (f: FunctionField)
    ensures f.name == name && FieldType(f) == t && f.applySchemaMapping == applySchemaMapping
    ensures f.args == arguments
  {
    FunctionNode(name, t, applySchemaMapping, arguments)
  }

  /** `new Function(name, type, arguments…)`: schema mapping defaults to true. */
  function MakeNamed(name: Name, t: DataType, arguments: seq<Field>): (f: FunctionField)
    ensures f.name == name && FieldType(f) == t && f.applySchemaMapping
    ensures f.args == arguments
  {
    MakeMapped(name, t, true, arguments)
  }

  /** `new Function(String, type, arguments…)`: the string becomes a one-part unquoted name. */
  function MakeFromString(name: string, t: DataType, arguments: seq<Field>): (f: FunctionField)
    ensures f.name == Name([name], Unquoted) && FieldType(f) == t && f.applySchemaMapping
    ensures f.args == arguments
  {
    MakeNamed(UnquotedName(name), t, arguments)
  }

  /** `getQualifiedName()`. */
  function QualifiedName(f: FunctionField): Name
  {
    f.name
  }

  /** `$args()`. */
  function Args(f: FunctionField): seq<Field>
  {
    f.args
  }

  /** `arguments()`: the stored argument list as a query part. */
  function Arguments(f: FunctionField): Part
  {
    FieldListPart(f.args)
  }

  /** `equals` between two `Function` nodes. */
  predicate Equals(f: FunctionField, g: FunctionField)
  {
    QualifiedName(f) == QualifiedName(g) && f.args == g.args
  }

  /** Equality is an equivalence that holds exactly when names and argument lists agree. */
  lemma EqualsMeaning(f: FunctionField, g: FunctionField, h: FunctionField)
    ensures Equals(f, g) <==> f.name == g.name && Args(f) == Args(g)
    ensures Equals(f, f)
    ensures Equals(f, g) ==> Equals(g, f)
    ensures Equals(f, g) && Equals(g, h) ==> Equals(f, h)
    ensures Equals(f, g) && f.dataType == g.dataType && f.applySchemaMapping == g.applySchemaMapping ==> f == g
  {
  }

  /** The data type and the schema-mapping flag take no part in equality. */
  lemma EqualsIgnoresTypeAndMapping(n: Name, arguments: seq<Field>)
    ensures Equals(MakeMapped(n, VARCHAR, true, arguments), MakeMapped(n, INTEGER, false, arguments))
    ensures MakeMapped(n, VARCHAR, true, arguments) != MakeMapped(n, INTEGER, false, arguments)
  {
  }
}
