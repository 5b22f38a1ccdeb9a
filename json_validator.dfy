/**
 * The validation engine of class JsonValidator: a recursive walk over a schema
 * node and a value that either succeeds or stops at the first violation, which
 * it reports with its kind and the dotted path of the value being checked
 * (the source throws JsonValidationException; here it is an Invalid outcome).
 */
module JsonValidator {
  import opened JsonValue
  import opened JsonSchema
  import opened Conformance

  /** Which check failed; the message text of the source is not modelled. */
  datatype Violation =
    | ExpectedObject | ExpectedNumber | ExpectedInteger | ExpectedBoolean
    | ExpectedString | ExpectedArray | ExpectedNull
    | MissingRequired(property: string)
    | BelowMinimum | AboveMaximum
    | PatternMismatch | TooShort | TooLong
    | TooFewItems | TooManyItems | DuplicateItems

  datatype Outcome = Valid | Invalid(violation: Violation, path: string)

  /** `path` names the value at `parent` or one nested below it. */
  predicate IsWithin(parent: string, path: string) {
    path == parent
    || (|parent| < |path| && path[..|parent|] == parent && path[|parent|] == '.')
  }

  /** A path below a child is below its parent. */
  lemma WithinChild(parent: string, name: string, path: string)
    requires IsWithin(parent + "." + name, path)
    ensures IsWithin(parent, path)
  {
  }

  /** `$entityName ?: 'root'`: a missing or falsy name becomes "root". */
  function EntityName(name: Option<string>): (n: string)
    ensures name.None? || name.value == "" || name.value == "0" ==> n == "root"
    ensures name.Some? && Truthy(Str(name.value)) ==> n == name.value
  {
    if name.Some? && name.value != "" && name.value != "0" then name.value else "root"
  }

  /** validate(): checks the value against the root schema under the given
      name, or "root", and leaves schema and value untouched. */
  function Validate(rt: Runtime, schema: Schema, entity: Value, name: Option<string>): (r: Outcome)
    ensures r.Valid? <==> Conforms(rt, schema, entity)
    ensures r.Invalid? ==> IsWithin(EntityName(name), r.path)
  {
    ValidateType(rt, schema, entity, EntityName(name))
  }

  /** validateType(): dispatches on the node's type. A node whose type takes no
      branch accepts every value. */
  function ValidateType(rt: Runtime, s: Schema, v: Value, path: string): (r: Outcome)
    decreases s, 2, 0
    ensures r.Valid? <==> Conforms(rt, s, v)
    ensures r.Invalid? ==> IsWithin(path, r.path)
    ensures DeclaredType(s).None? ==> r == Valid
  {
    match DeclaredType(s)
    case None => Valid
    case Some(ObjectType) => CheckTypeObject(rt, s, v, path)
    case Some(NumberType) => CheckTypeNumber(rt, s, v, path)
    case Some(IntegerType) => CheckTypeInteger(s, v, path)
    case Some(BooleanType) => CheckTypeBoolean(v, path)
    case Some(StringType) => CheckTypeString(rt, s, v, path)
    case Some(ArrayType) => CheckTypeArray(s, v, path)
    case Some(NullType) => CheckTypeNull(v, path)
  }

  /** checkTypeObject(): a non-object fails; an object has its declared
      properties checked. */
  function CheckTypeObject(rt: Runtime, s: Schema, v: Value, path: string): (r: Outcome)
    decreases s, 1, 0
    ensures !v.Obj? ==> r == Invalid(ExpectedObject, path)
    ensures r.Valid? <==> v.Obj? && PropertiesConform(rt, s, v.fields, 0)
    ensures r.Invalid? ==> IsWithin(path, r.path)
  {
    if !v.Obj? then Invalid(ExpectedObject, path)
    else ValidateProperties(rt, s, v.fields, path, 0)
  }

  /** validateProperties() from the i-th declared property on, in declaration
      order, stopping at the first property that fails. Fields the schema does
      not declare are never looked at. */
  function ValidateProperties(rt: Runtime, s: Schema, fields: map<string, Value>, path: string, i: nat): (r: Outcome)
    requires i <= |s.properties|
    decreases s, 0, |s.properties| - i
    ensures r.Valid? <==> PropertiesConform(rt, s, fields, i)
    ensures r.Invalid? ==> IsWithin(path, r.path)
  {
    if i == |s.properties| then Valid
    else
      var here := PropertyStep(rt, s, i, fields, path);
      if here.Invalid? then here
      else
        ValidateProperties(rt, s, fields, path, i + 1)
  }

  /** One turn of the loop in validateProperties(): a set property is checked
      against its schema under `path.name`; a missing or null one fails only
      when it is required, and then at the parent's path. */
  function PropertyStep(rt: Runtime, s: Schema, j: nat, fields: map<string, Value>, path: string): (r: Outcome)
    requires j < |s.properties|
    decreases s, 0, 0
    ensures r.Valid? <==> PropertyConforms(rt, s, j, fields)
    ensures IsSet(fields, s.properties[j].name) && r.Invalid? ==>
      IsWithin(path + "." + s.properties[j].name, r.path)
    ensures r.Invalid? ==> IsWithin(path, r.path)
    ensures !IsSet(fields, s.properties[j].name) ==>
      r == if IsRequired(s.properties[j].schema) then Invalid(MissingRequired(s.properties[j].name), path) else Valid
  {
    var p := s.properties[j];
    if IsSet(fields, p.name) then
      var r := ValidateType(rt, p.schema, fields[p.name], path + "." + p.name);
      if r.Invalid? then WithinChild(path, p.name, r.path); r else r
    else if IsRequired(p.schema) then Invalid(MissingRequired(p.name), path)
    else Valid
  }

  /** checkTypeNumber(): is_numeric, then minimum, then maximum. */
  function CheckTypeNumber(rt: Runtime, s: Schema, v: Value, path: string): (r: Outcome)
    ensures r.Valid? <==> NumberValue(rt, v).Some? && NumberConforms(s, NumberValue(rt, v).value)
    ensures r == Invalid(ExpectedNumber, path) <==> NumberValue(rt, v).None?
    ensures r == Invalid(BelowMinimum, path) <==>
      NumberValue(rt, v).Some? && !AtLeast(s.minimum, NumberValue(rt, v).value)
    ensures r == Invalid(AboveMaximum, path) <==>
      NumberValue(rt, v).Some? && AtLeast(s.minimum, NumberValue(rt, v).value)
      && !AtMost(s.maximum, NumberValue(rt, v).value)
    ensures r.Invalid? ==> r.path == path
  {
    match NumberValue(rt, v)
    case None => Invalid(ExpectedNumber, path)
    case Some(x) =>
      var low := CheckMinimum(s, x, path);
      if low.Invalid? then low else CheckMaximum(s, x, path)
  }

  /** checkTypeInteger(): is_int, so a whole-valued float or a numeric string
      fails; then minimum, then maximum. */
  function CheckTypeInteger(s: Schema, v: Value, path: string): (r: Outcome)
    ensures r.Valid? <==> v.Int? && NumberConforms(s, v.i as real)
    ensures r == Invalid(ExpectedInteger, path) <==> !v.Int?
    ensures r == Invalid(BelowMinimum, path) <==> v.Int? && !AtLeast(s.minimum, v.i as real)
    ensures r == Invalid(AboveMaximum, path) <==>
      v.Int? && AtLeast(s.minimum, v.i as real) && !AtMost(s.maximum, v.i as real)
    ensures r.Invalid? ==> r.path == path
  {
    if !v.Int? then Invalid(ExpectedInteger, path)
    else
      var low := CheckMinimum(s, v.i as real, path);
      if low.Invalid? then low else CheckMaximum(s, v.i as real, path)
  }

  /** checkTypeBoolean(): is_bool, only true and false. */
  function CheckTypeBoolean(v: Value, path: string): (r: Outcome)
    ensures r.Valid? <==> v.Bool?
    ensures r.Invalid? ==> r == Invalid(ExpectedBoolean, path)
  {
    if v.Bool? then Valid else Invalid(ExpectedBoolean, path)
  }

  /** checkTypeNull(): is_null, only null. */
  function CheckTypeNull(v: Value, path: string): (r: Outcome)
    ensures r.Valid? <==> v.Null?
    ensures r.Invalid? ==> r == Invalid(ExpectedNull, path)
  {
    if v.Null? then Valid else Invalid(ExpectedNull, path)
  }

  /** checkTypeString(): is_string, then pattern, then minLength, then
      maxLength; the first failure is the one reported. */
  function CheckTypeString(rt: Runtime, s: Schema, v: Value, path: string): (r: Outcome)
    ensures r.Valid? <==> v.Str? && StringConforms(rt, s, v.s)
    ensures r == Invalid(ExpectedString, path) <==> !v.Str?
    ensures r == Invalid(PatternMismatch, path) <==>
      v.Str? && PatternEnabled(s) && !rt.pregMatch(s.pattern.value, v.s)
    ensures r == Invalid(TooShort, path) <==>
      v.Str? && (PatternEnabled(s) ==> rt.pregMatch(s.pattern.value, v.s))
      && !AtLeast(s.minLength, ByteLength(v.s) as real)
    ensures r == Invalid(TooLong, path) <==>
      v.Str? && (PatternEnabled(s) ==> rt.pregMatch(s.pattern.value, v.s))
      && AtLeast(s.minLength, ByteLength(v.s) as real)
      && !AtMost(s.maxLength, ByteLength(v.s) as real)
    ensures r.Invalid? ==> r.path == path
  {
    if !v.Str? then Invalid(ExpectedString, path)
    else
      var matched := CheckPattern(rt, s, v.s, path);
      if matched.Invalid? then matched
      else
        var long := CheckMinLength(s, v.s, path);
        if long.Invalid? then long else CheckMaxLength(s, v.s, path)
  }

  /** checkTypeArray(): is_array, then minItems, then maxItems, then
      uniqueItems. The elements themselves are never validated. */
  function CheckTypeArray(s: Schema, v: Value, path: string): (r: Outcome)
    ensures r.Valid? <==> v.Arr? && ArrayConforms(s, v.items)
    ensures r == Invalid(ExpectedArray, path) <==> !v.Arr?
    ensures r == Invalid(TooFewItems, path) <==> v.Arr? && !AtLeast(s.minItems, |v.items| as real)
    ensures r == Invalid(TooManyItems, path) <==>
      v.Arr? && AtLeast(s.minItems, |v.items| as real) && !AtMost(s.maxItems, |v.items| as real)
    ensures r == Invalid(DuplicateItems, path) <==>
      v.Arr? && AtLeast(s.minItems, |v.items| as real) && AtMost(s.maxItems, |v.items| as real)
      && UniqueItemsEnabled(s) && !Distinct(v.items)
    ensures r.Invalid? ==> r.path == path
  {
    if !v.Arr? then Invalid(ExpectedArray, path)
    else
      var few := CheckMinItems(s, v.items, path);
      if few.Invalid? then few
      else
        var many := CheckMaxItems(s, v.items, path);
        if many.Invalid? then many else CheckUniqueItems(s, v.items, path)
  }

  /** checkMinimum(): inclusive; an absent or zero minimum checks nothing. */
  function CheckMinimum(s: Schema, x: real, path: string): (r: Outcome)
    ensures r.Valid? <==> AtLeast(s.minimum, x)
    ensures r.Invalid? ==> r == Invalid(BelowMinimum, path)
    ensures s.minimum == Some(x) ==> r == Valid
  {
    if Enabled(s.minimum) && x < s.minimum.value then Invalid(BelowMinimum, path) else Valid
  }

  /** checkMaximum(): inclusive; an absent or zero maximum checks nothing. */
  function CheckMaximum(s: Schema, x: real, path: string): (r: Outcome)
    ensures r.Valid? <==> AtMost(s.maximum, x)
    ensures r.Invalid? ==> r == Invalid(AboveMaximum, path)
    ensures s.maximum == Some(x) ==> r == Valid
  {
    if Enabled(s.maximum) && x > s.maximum.value then Invalid(AboveMaximum, path) else Valid
  }

  /** checkPattern(): a truthy pattern must match; "" and "0" check nothing. */
  function CheckPattern(rt: Runtime, s: Schema, str: string, path: string): (r: Outcome)
    ensures r.Valid? <==> !PatternEnabled(s) || rt.pregMatch(s.pattern.value, str)
    ensures r.Invalid? ==> r == Invalid(PatternMismatch, path)
  {
    if PatternEnabled(s) && !rt.pregMatch(s.pattern.value, str) then Invalid(PatternMismatch, path)
    else Valid
  }

  /** checkMinLength(): strlen, inclusive; absent or zero checks nothing. */
  function CheckMinLength(s: Schema, str: string, path: string): (r: Outcome)
    ensures r.Valid? <==> AtLeast(s.minLength, ByteLength(str) as real)
    ensures r.Invalid? ==> r == Invalid(TooShort, path)
    ensures s.minLength == Some(ByteLength(str) as real) ==> r == Valid
  {
    if Enabled(s.minLength) && (ByteLength(str) as real) < s.minLength.value then Invalid(TooShort, path)
    else Valid
  }

  /** checkMaxLength(): strlen, inclusive; absent or zero checks nothing. */
  function CheckMaxLength(s: Schema, str: string, path: string): (r: Outcome)
    ensures r.Valid? <==> AtMost(s.maxLength, ByteLength(str) as real)
    ensures r.Invalid? ==> r == Invalid(TooLong, path)
    ensures s.maxLength == Some(ByteLength(str) as real) ==> r == Valid
  {
    if Enabled(s.maxLength) && (ByteLength(str) as real) > s.maxLength.value then Invalid(TooLong, path)
    else Valid
  }

  /** checkMinItems(): count, inclusive; absent or zero checks nothing. */
  function CheckMinItems(s: Schema, items: seq<Value>, path: string): (r: Outcome)
    ensures r.Valid? <==> AtLeast(s.minItems, |items| as real)
    ensures r.Invalid? ==> r == Invalid(TooFewItems, path)
    ensures s.minItems == Some(|items| as real) ==> r == Valid
  {
    if Enabled(s.minItems) && (|items| as real) < s.minItems.value then Invalid(TooFewItems, path)
    else Valid
  }

  /** checkMaxItems(): count, inclusive; absent or zero checks nothing. */
  function CheckMaxItems(s: Schema, items: seq<Value>, path: string): (r: Outcome)
    ensures r.Valid? <==> AtMost(s.maxItems, |items| as real)
    ensures r.Invalid? ==> r == Invalid(TooManyItems, path)
    ensures s.maxItems == Some(|items| as real) ==> r == Valid
  {
    if Enabled(s.maxItems) && (|items| as real) > s.maxItems.value then Invalid(TooManyItems, path)
    else Valid
  }

  /** checkUniqueItems(): when uniqueItems is truthy, array_unique must not
      shorten the list, which fails exactly when some value occurs twice. */
  function CheckUniqueItems(s: Schema, items: seq<Value>, path: string): (r: Outcome)
    ensures r.Valid? <==> !UniqueItemsEnabled(s) || Distinct(items)
    ensures r.Invalid? ==> r == Invalid(DuplicateItems, path)
  {
    ArrayUniqueCount(items);
    if UniqueItemsEnabled(s) && |ArrayUnique(items)| != |items| then Invalid(DuplicateItems, path)
    else Valid
  }
}
