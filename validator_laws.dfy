/**
 * Properties of the validator that relate several calls or hold across a
 * family of inputs: fail-fast reporting of the first failing property, the
 * required-property rule, and the parts of a value the walk never inspects.
 */
module ValidatorLaws {
  import opened JsonValue
  import opened JsonSchema
  import opened Conformance
  import opened JsonValidator

  /** A node whose type is absent, a list of names, or a string that is none of
      the seven keywords accepts every value without any further check. */
  lemma UntypedNodeAcceptsAll(rt: Runtime, s: Schema, v: Value, path: string)
    requires s.typ.None? || s.typ.value.Arr?
      || (s.typ.value.Str? && forall t :: s.typ.value.s != Keyword(t))
    ensures ValidateType(rt, s, v, path) == Valid
  {
  }

  /** The walk from the i-th property reports the failure of property k, which
      is the first property from the i-th on that is not satisfied. */
  ghost predicate FailsFirstAt(rt: Runtime, s: Schema, fields: map<string, Value>, path: string, i: nat, k: nat)
    requires i <= k < |s.properties|
  {
    ValidateProperties(rt, s, fields, path, i) == PropertyStep(rt, s, k, fields, path)
    && !PropertyConforms(rt, s, k, fields)
    && forall j | i <= j < k :: PropertyConforms(rt, s, j, fields)
  }

  /** Fail-fast over properties: when the walk from the i-th property fails, the
      reported failure is that of some property k, and every declared property
      before k was satisfied. */
  lemma {:induction false} FirstFailingProperty(rt: Runtime, s: Schema, fields: map<string, Value>, path: string, i: nat)
    requires i <= |s.properties|
    requires ValidateProperties(rt, s, fields, path, i).Invalid?
    ensures exists k | i <= k < |s.properties| :: FailsFirstAt(rt, s, fields, path, i, k)
    decreases |s.properties| - i
  {
    var here := PropertyStep(rt, s, i, fields, path);
    if here.Invalid? {
      assert FailsFirstAt(rt, s, fields, path, i, i);
    } else {
      FirstFailingProperty(rt, s, fields, path, i + 1);
      var k :| i + 1 <= k < |s.properties| && FailsFirstAt(rt, s, fields, path, i + 1, k);
      assert FailsFirstAt(rt, s, fields, path, i, k);
    }
  }

  /** A required property that is missing or null makes an object fail with
      MissingRequired at the object's own path, provided every property
      declared before it is satisfied. */
  lemma MissingRequiredFails(rt: Runtime, s: Schema, fields: map<string, Value>, path: string, k: nat)
    requires DeclaredType(s) == Some(ObjectType)
    requires k < |s.properties|
    requires forall j | 0 <= j < k :: PropertyConforms(rt, s, j, fields)
    requires !IsSet(fields, s.properties[k].name) && IsRequired(s.properties[k].schema)
    ensures ValidateType(rt, s, Obj(fields), path) == Invalid(MissingRequired(s.properties[k].name), path)
  {
    MissingRequiredFrom(rt, s, fields, path, k, 0);
  }

  lemma {:induction false} MissingRequiredFrom(rt: Runtime, s: Schema, fields: map<string, Value>, path: string, k: nat, i: nat)
    requires i <= k < |s.properties|
    requires forall j | i <= j < k :: PropertyConforms(rt, s, j, fields)
    requires !IsSet(fields, s.properties[k].name) && IsRequired(s.properties[k].schema)
    ensures ValidateProperties(rt, s, fields, path, i) == Invalid(MissingRequired(s.properties[k].name), path)
    decreases k - i
  {
    if i < k {
      assert PropertyConforms(rt, s, i, fields);
      MissingRequiredFrom(rt, s, fields, path, k, i + 1);
    }
  }

  /** Keys of an object that its schema does not declare are never checked:
      adding or replacing one does not change the outcome. */
  lemma UndeclaredKeyIgnored(rt: Runtime, s: Schema, fields: map<string, Value>, key: string, x: Value, path: string)
    requires forall j | 0 <= j < |s.properties| :: s.properties[j].name != key
    ensures ValidateType(rt, s, Obj(fields[key := x]), path) == ValidateType(rt, s, Obj(fields), path)
  {
    if DeclaredType(s) == Some(ObjectType) {
      UndeclaredKeyIgnoredFrom(rt, s, fields, key, x, path, 0);
    }
  }

  lemma {:induction false} UndeclaredKeyIgnoredFrom(rt: Runtime, s: Schema, fields: map<string, Value>, key: string, x: Value, path: string, i: nat)
    requires i <= |s.properties|
    requires forall j | 0 <= j < |s.properties| :: s.properties[j].name != key
    ensures ValidateProperties(rt, s, fields[key := x], path, i) == ValidateProperties(rt, s, fields, path, i)
    decreases |s.properties| - i
  {
    if i < |s.properties| {
      var name := s.properties[i].name;
      assert name != key;
      assert IsSet(fields[key := x], name) == IsSet(fields, name);
      assert PropertyStep(rt, s, i, fields[key := x], path) == PropertyStep(rt, s, i, fields, path);
      UndeclaredKeyIgnoredFrom(rt, s, fields, key, x, path, i + 1);
    }
  }

  /** The elements of a list are never validated: two lists of the same length
      that either both have or both lack a repeated value get the same outcome
      against any schema node. */
  lemma ArrayElementsNotValidated(rt: Runtime, s: Schema, a: seq<Value>, b: seq<Value>, path: string)
    requires |a| == |b| && (Distinct(a) <==> Distinct(b))
    ensures ValidateType(rt, s, Arr(a), path) == ValidateType(rt, s, Arr(b), path)
  {
  }

  /** The failure `r` is produced by the node reached from (s, v) by following
      the declared properties `steps` (indices into each node's "properties"),
      each of them set in the value, each preceded by satisfied properties, and
      the path accumulates ".name" for every step. At the node reached, the
      failure is the node's own: a missing required property, reported at the
      node's path, or a failed check of a node that is not an object walk. */
  ghost predicate FailsAlong(rt: Runtime, s: Schema, v: Value, path: string, steps: seq<nat>, r: Outcome)
    decreases |steps|
  {
    if steps == [] then
      if DeclaredType(s) == Some(ObjectType) && v.Obj? then
        exists j | 0 <= j < |s.properties| ::
          PropertiesBefore(rt, s, v.fields, j)
          && !IsSet(v.fields, s.properties[j].name) && IsRequired(s.properties[j].schema)
          && r == Invalid(MissingRequired(s.properties[j].name), path)
      else
        r.Invalid? && r.path == path && r == ValidateType(rt, s, v, path)
    else
      var j := steps[0];
      DeclaredType(s) == Some(ObjectType) && v.Obj? && j < |s.properties|
      && PropertiesBefore(rt, s, v.fields, j)
      && IsSet(v.fields, s.properties[j].name)
      && FailsAlong(rt, s.properties[j].schema, v.fields[s.properties[j].name],
                    path + "." + s.properties[j].name, steps[1..], r)
  }

  /** Every declared property before the k-th is satisfied. */
  ghost predicate PropertiesBefore(rt: Runtime, s: Schema, fields: map<string, Value>, k: nat)
    requires k <= |s.properties|
  {
    forall j | 0 <= j < k :: PropertyConforms(rt, s, j, fields)
  }

  /** Every failure is reported at the path `path.name1.name2...` of the node
      whose own check failed, reached through set properties named name1,
      name2, ... */
  lemma {:induction false} FailureFollowsPropertyChain(rt: Runtime, s: Schema, v: Value, path: string)
    requires ValidateType(rt, s, v, path).Invalid?
    ensures exists steps :: FailsAlong(rt, s, v, path, steps, ValidateType(rt, s, v, path))
    decreases s
  {
    var r := ValidateType(rt, s, v, path);
    if DeclaredType(s) == Some(ObjectType) && v.Obj? {
      assert r == ValidateProperties(rt, s, v.fields, path, 0);
      FirstFailingProperty(rt, s, v.fields, path, 0);
      var k :| 0 <= k < |s.properties| && FailsFirstAt(rt, s, v.fields, path, 0, k);
      assert PropertiesBefore(rt, s, v.fields, k);
      var p := s.properties[k];
      if IsSet(v.fields, p.name) {
        var child := path + "." + p.name;
        assert r == ValidateType(rt, p.schema, v.fields[p.name], child);
        FailureFollowsPropertyChain(rt, p.schema, v.fields[p.name], child);
        var rest :| FailsAlong(rt, p.schema, v.fields[p.name], child, rest, r);
        assert ([k] + rest)[1..] == rest;
        assert FailsAlong(rt, s, v, path, [k] + rest, r);
      } else {
        assert FailsAlong(rt, s, v, path, [], r);
      }
    } else {
      assert FailsAlong(rt, s, v, path, [], r);
    }
  }
}
