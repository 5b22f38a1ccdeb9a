/**
 * Decoded JSON values as the validator receives them from PHP's json_decode,
 * and the few PHP built-ins the validator applies to them: conversion to
 * boolean, isset on an object property, strlen, count(array_unique(...)) and
 * the two services the model takes as parameters (preg_match and the
 * numeric-string test inside is_numeric).
 */
module JsonValue {

  datatype Option<T> = None | Some(value: T)

  /** A JSON document after json_decode: JSON objects become objects (stdClass),
      JSON arrays become lists, numbers are integers or floats. */
  datatype Value =
    | Null
    | Bool(b: bool)
    | Int(i: int)
    | Num(r: real)
    | Str(s: string)
    | Arr(items: seq<Value>)
    | Obj(fields: map<string, Value>)

  /** PHP's conversion of a value to boolean: null, false, 0, 0.0, "", "0" and
      the empty list are false; every object is true. */
  predicate Truthy(v: Value) {
    match v
    case Null => false
    case Bool(b) => b
    case Int(i) => i != 0
    case Num(r) => r != 0.0
    case Str(s) => s != "" && s != "0"
    case Arr(items) => |items| != 0
    case Obj(_) => true
  }

  /** `isset($node->f) && $node->f` for an optional schema attribute. */
  predicate SetAndTruthy(f: Option<Value>) {
    f.Some? && Truthy(f.value)
  }

  /** `isset($entity->{$name})`: the property exists and is not null. */
  predicate IsSet(fields: map<string, Value>, name: string) {
    name in fields && fields[name] != Null
  }

  /** The two services of the PHP runtime the validator relies on but does not
      define: preg_match(pattern, subject) == 1, and the value of a string that
      is_numeric accepts (None when it rejects the string). */
  datatype Runtime = Runtime(
    pregMatch: (string, string) -> bool,
    numericString: string -> Option<real>)

  /** The number PHP compares with a bound, for the values is_numeric accepts;
      None exactly when is_numeric rejects the value. */
  function NumberValue(rt: Runtime, v: Value): (n: Option<real>)
    ensures v.Int? ==> n == Some(v.i as real)
    ensures v.Num? ==> n == Some(v.r)
    ensures n.Some? ==> v.Int? || v.Num? || v.Str?
  {
    match v
    case Int(i) => Some(i as real)
    case Num(r) => Some(r)
    case Str(s) => rt.numericString(s)
    case _ => None
  }

  /** Number of bytes of the UTF-8 encoding of one character. */
  function Utf8Width(c: char): nat {
    if c as int < 0x80 then 1
    else if c as int < 0x800 then 2
    else if c as int < 0x1_0000 then 3
    else 4
  }

  /** strlen of a decoded JSON string: its length in UTF-8 bytes, which is at
      least its number of characters and at most four times that. */
  function ByteLength(s: string): (n: nat)
    ensures |s| <= n <= 4 * |s|
  {
    if s == [] then 0 else Utf8Width(s[0]) + ByteLength(s[1..])
  }

  lemma {:induction false} AsciiByteLength(s: string)
    requires forall k :: 0 <= k < |s| ==> s[k] as int < 0x80
    ensures ByteLength(s) == |s|
  {
    if s != [] {
      assert s[0] as int < 0x80;
      AsciiByteLength(s[1..]);
    }
  }

  /** No value occurs twice in the list. */
  predicate Distinct(a: seq<Value>) {
    forall i, j :: 0 <= i < j < |a| ==> a[i] != a[j]
  }

  /** array_unique: the list with every later repetition of a value removed, so
      that the first occurrence of each value is kept, in order. */
  function ArrayUnique(a: seq<Value>): (u: seq<Value>)
    ensures |u| <= |a|
    ensures forall x :: x in u <==> x in a
    ensures Distinct(u)
  {
    if a == [] then []
    else
      var init, last := a[..|a| - 1], a[|a| - 1];
      assert a == init + [last];
      var u := ArrayUnique(init);
      if last in u then u else u + [last]
  }

  /** A list extended by one value is distinct exactly when the list is and
      does not already hold the value. */
  lemma DistinctSnoc(init: seq<Value>, last: Value)
    ensures Distinct(init + [last]) <==> Distinct(init) && last !in init
  {
    var a := init + [last];
    if Distinct(a) {
      forall i | 0 <= i < |init| ensures init[i] != last {
        assert init[i] == a[i] && last == a[|init|];
      }
      forall i, j | 0 <= i < j < |init| ensures init[i] != init[j] {
        assert init[i] == a[i] && init[j] == a[j];
      }
    }
    if Distinct(init) && last !in init {
      forall i, j | 0 <= i < j < |a| ensures a[i] != a[j] {
        assert a[i] == init[i];
      }
    }
  }

  /** count(array_unique($a)) != count($a) holds exactly when some value
      occurs twice. */
  lemma {:induction false} ArrayUniqueCount(a: seq<Value>)
    ensures |ArrayUnique(a)| == |a| <==> Distinct(a)
  {
    if a != [] {
      var init, last := a[..|a| - 1], a[|a| - 1];
      assert a == init + [last];
      ArrayUniqueCount(init);
      DistinctSnoc(init, last);
    }
  }
}
