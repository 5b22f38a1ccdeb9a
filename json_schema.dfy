/**
 * One node of a JSON Schema (draft 03) as the validator reads it: only the
 * attributes the validator looks at are kept, each as it is decoded.
 */
module JsonSchema {
  import opened JsonValue

  /** One entry of a node's "properties" object, in declaration order. */
  datatype Property = Property(name: string, schema: Schema)

  /** A schema node. An absent "properties" is the empty list; a numeric bound
      is None when absent. The list of properties may repeat a name, which a
      decoded JSON object cannot; the validator visits every entry in turn.
      "type", "required" and "uniqueItems" keep their decoded value because
      the validator compares or converts them as PHP values. */
  datatype Schema = Schema(
    typ: Option<Value>,
    properties: seq<Property>,
    required: Option<Value>,
    minimum: Option<real>,
    maximum: Option<real>,
    pattern: Option<string>,
    minLength: Option<real>,
    maxLength: Option<real>,
    minItems: Option<real>,
    maxItems: Option<real>,
    uniqueItems: Option<Value>)

  /** The seven type names the validator dispatches on. */
  datatype TypeName =
    | ObjectType | NumberType | IntegerType | BooleanType
    | StringType | ArrayType | NullType

  /** The keyword that names a type in a schema. */
  function Keyword(t: TypeName): string {
    match t
    case ObjectType => "object"
    case NumberType => "number"
    case IntegerType => "integer"
    case BooleanType => "boolean"
    case StringType => "string"
    case ArrayType => "array"
    case NullType => "null"
  }

  /** The branch of the `$schema->type == '...'` chain that is taken, if any.
      Under PHP's loose comparison a string matches only its own keyword, and
      `true` equals every truthy string, so it takes the first branch,
      "object". Absent, null, a list of names, an object or any other string
      takes no branch. */
  function DeclaredType(s: Schema): (t: Option<TypeName>)
    ensures forall n :: s.typ == Some(Str(Keyword(n))) ==> t == Some(n)
    ensures s.typ == Some(Bool(true)) ==> t == Some(ObjectType)
    ensures t.Some? ==>
      s.typ == Some(Str(Keyword(t.value))) || (s.typ == Some(Bool(true)) && t.value == ObjectType)
  {
    match s.typ
    case Some(Str(name)) =>
      if name == "object" then Some(ObjectType)
      else if name == "number" then Some(NumberType)
      else if name == "integer" then Some(IntegerType)
      else if name == "boolean" then Some(BooleanType)
      else if name == "string" then Some(StringType)
      else if name == "array" then Some(ArrayType)
      else if name == "null" then Some(NullType)
      else None
    case Some(Bool(true)) => Some(ObjectType)
    case _ => None
  }

  /** `isset($schema->bound) && $schema->bound`: an absent bound and a bound of
      zero both switch their check off. */
  predicate Enabled(bound: Option<real>) {
    bound.Some? && bound.value != 0.0
  }

  /** `isset($schema->pattern) && $schema->pattern`: "" and "0" are falsy. */
  predicate PatternEnabled(s: Schema) {
    s.pattern.Some? && Truthy(Str(s.pattern.value))
  }

  /** `isset($property->required) && $property->required` */
  predicate IsRequired(s: Schema) {
    SetAndTruthy(s.required)
  }

  /** `isset($schema->uniqueItems) && $schema->uniqueItems` */
  predicate UniqueItemsEnabled(s: Schema) {
    SetAndTruthy(s.uniqueItems)
  }
}
