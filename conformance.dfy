/**
 * What it means for a value to satisfy a schema node under the keywords the
 * validator implements, stated declaratively: every applicable constraint
 * holds, with no order among them and no path. The validator in module
 * JsonValidator is proved to accept exactly the values described here.
 */
module Conformance {
  import opened JsonValue
  import opened JsonSchema

  /** A lower bound is met: inclusive, and void when absent or zero. */
  predicate AtLeast(bound: Option<real>, x: real) {
    !Enabled(bound) || bound.value <= x
  }

  /** An upper bound is met: inclusive, and void when absent or zero. */
  predicate AtMost(bound: Option<real>, x: real) {
    !Enabled(bound) || x <= bound.value
  }

  ghost predicate NumberConforms(s: Schema, x: real) {
    AtLeast(s.minimum, x) && AtMost(s.maximum, x)
  }

  ghost predicate StringConforms(rt: Runtime, s: Schema, str: string) {
    (PatternEnabled(s) ==> rt.pregMatch(s.pattern.value, str))
    && AtLeast(s.minLength, ByteLength(str) as real)
    && AtMost(s.maxLength, ByteLength(str) as real)
  }

  ghost predicate ArrayConforms(s: Schema, items: seq<Value>) {
    AtLeast(s.minItems, |items| as real)
    && AtMost(s.maxItems, |items| as real)
    && (UniqueItemsEnabled(s) ==> Distinct(items))
  }

  /** The value satisfies the node: nothing is asked when the node's type takes
      no branch; otherwise the value has that type and meets the node's
      constraints for it, and an object meets every declared property. */
  ghost predicate Conforms(rt: Runtime, s: Schema, v: Value)
    decreases s, 1, 0
  {
    match DeclaredType(s)
    case None => true
    case Some(ObjectType) =>
      v.Obj? && PropertiesConform(rt, s, v.fields, 0)
    case Some(NumberType) =>
      NumberValue(rt, v).Some? && NumberConforms(s, NumberValue(rt, v).value)
    case Some(IntegerType) => v.Int? && NumberConforms(s, v.i as real)
    case Some(BooleanType) => v.Bool?
    case Some(StringType) => v.Str? && StringConforms(rt, s, v.s)
    case Some(ArrayType) => v.Arr? && ArrayConforms(s, v.items)
    case Some(NullType) => v.Null?
  }

  /** Every declared property of `s` from the `from`-th on is satisfied. */
  ghost predicate PropertiesConform(rt: Runtime, s: Schema, fields: map<string, Value>, from: nat)
    decreases s, 0, 1
  {
    forall j | from <= j < |s.properties| :: PropertyConforms(rt, s, j, fields)
  }

  /** The j-th declared property of `s` is satisfied by an object with these
      fields: a non-null value conforms to the property's schema, and a missing
      or null one is allowed unless the property is required. */
  ghost predicate PropertyConforms(rt: Runtime, s: Schema, j: nat, fields: map<string, Value>)
    requires j < |s.properties|
    decreases s, 0, 0
  {
    var p := s.properties[j];
    if IsSet(fields, p.name) then Conforms(rt, p.schema, fields[p.name])
    else !IsRequired(p.schema)
  }
}
