/** What a contract makes of a single field, told by relations, and of a record it has already been applied to. */
module ContractFields {
  import opened Wrappers
  import opened Definitions
  import opened Strings
  import opened Contracts

  // ---- types ----

  /** The names of a type decide alone how it is coerced: no name has two readings. */
  lemma KindIs(sqlType: string)
    ensures var t, k := Lower(sqlType), CoercionFor(sqlType);
            && (k.ToInteger? <==> "int" <= t || t == "bigint")
            && (k.ToNumber? <==> "numeric" <= t || "decimal" <= t || t in ["float", "double", "real"])
            && (k.ToBoolean? <==> t in ["boolean", "bool"])
            && (k.ToText? <==> "varchar" <= t || t in ["text", "string"])
  {
    var t := Lower(sqlType);
    FirstLetters();
    assert "int" <= "integer" by {
      assert "integer"[..3] == "int";
    }
    assert "int" <= t ==> t[0] == "int"[0];
    assert "numeric" <= t ==> t[0] == "numeric"[0];
    assert "decimal" <= t ==> t[0] == "decimal"[0] && t[1] == "decimal"[1];
    assert "varchar" <= t ==> t[0] == "varchar"[0];
  }

  lemma FirstLetters()
    ensures "bigint"[0] == 'b' && "bigint"[1] == 'i' && "boolean"[1] == "bool"[1] == 'o'
    ensures "boolean"[0] == "bool"[0] == 'b' && "int"[0] == 'i' && "integer"[0] == 'i'
    ensures "numeric"[0] == 'n' && "decimal"[0] == "double"[0] == 'd' && "decimal"[1] == 'e' && "double"[1] == 'o'
    ensures "float"[0] == 'f' && "real"[0] == 'r' && "varchar"[0] == 'v' && "text"[0] == 't' && "string"[0] == 's'
  {
  }

  // ---- values ----

  predicate ReadsAsInteger(cv: Conversions, value: Value, v: Value, i: int) {
    cv.number(value) == Some(i as real) && v == Num(i as real)
  }

  /** The value fits the type as `v`. */
  ghost predicate Fits(cv: Conversions, kind: Coercion, value: Value, v: Value) {
    match kind
    case ToInteger => exists i: int :: ReadsAsInteger(cv, value, v, i)
    case ToNumber => exists n :: cv.number(value) == Some(n) && v == Num(n)
    case ToBoolean =>
      || (v == Bool(true) && value in [Bool(true), Str("true"), Str("1")])
      || (v == Bool(false) && value in [Bool(false), Str("false"), Str("0")])
    case ToText => v == Str(cv.text(value))
    case Unchanged => v == value
  }

  lemma CoercesIff(cv: Conversions, value: Value, sqlType: string, v: Value)
    ensures CoerceValue(cv, value, sqlType) == Some(v) <==> Fits(cv, CoercionFor(sqlType), value, v)
  {
    hide CoercionFor;
    assert "true"[0] != "false"[0] && "true"[0] != "0"[0] && "1"[0] != "0"[0] && "1"[0] != "false"[0];
    match CoercionFor(sqlType) {
      case ToInteger =>
        if i: int :| ReadsAsInteger(cv, value, v, i) {
          assert (i as real).Floor == i;
        }
        if CoerceValue(cv, value, sqlType) == Some(v) {
          var i := cv.number(value).value.Floor;
          assert ReadsAsInteger(cv, value, v, i);
        }
      case ToNumber =>
        if CoerceValue(cv, value, sqlType) == Some(v) {
          assert cv.number(value) == Some(cv.number(value).value);
        }
      case _ =>
    }
  }

  predicate Missing(record: Record, name: string) {
    Lookup(record, name) == Undefined || Lookup(record, name) == Null
  }

  /** A missing field is null if it may be, and rejects the record otherwise. A value that fits is taken as it fits;
      for one that does not, the field's policy gives null, where that is allowed, or its default, or rejects. */
  lemma FieldIs(cv: Conversions, record: Record, f: FieldDef, v: Value)
    ensures var raw, kind := Lookup(record, f.name), CoercionFor(f.sqlType);
            FieldValue(cv, record, f) == Some(v) <==>
              || (Missing(record, f.name) && f.nullable && v == Null)
              || (!Missing(record, f.name) && Fits(cv, kind, raw, v))
              || (!Missing(record, f.name) && !(exists u :: Fits(cv, kind, raw, u))
                  && ((f.onError.ToNull? && f.nullable && v == Null)
                      || (f.onError.ToDefault? && v == OrNull(f.default))))
  {
    hide CoercionFor, CoerceValue, Fits;
    var raw, kind := Lookup(record, f.name), CoercionFor(f.sqlType);
    CoercesIff(cv, raw, f.sqlType, v);
    var coerced := CoerceValue(cv, raw, f.sqlType);
    if coerced.Some? {
      CoercesIff(cv, raw, f.sqlType, coerced.value);
    } else {
      forall u
        ensures !Fits(cv, kind, raw, u)
      {
        CoercesIff(cv, raw, f.sqlType, u);
      }
    }
  }

  ghost predicate HasField(c: ContractDef, name: string) {
    exists f :: f in c.fields && f.name == name
  }

  /** What becomes of the keys no field is named for: dropped, kept with their values, or the record is rejected. */
  lemma UnknownKeys(cv: Conversions, c: ContractDef, record: Record, output: Record)
    requires Accepts(cv, c, record) && IsOutput(cv, c, record, output)
    ensures forall key :: HasField(c, key) ==> key in output
    ensures forall key :: !HasField(c, key) ==>
              match c.unknownFields
              case Drop => key !in output
              case Passthrough => key in output <==> key in record
              case Fail => key !in record && key !in output
    ensures forall key :: !HasField(c, key) && key in output ==> output[key] == record[key]
  {
    forall key
      ensures HasField(c, key) <==> Known(c.fields, key)
    {
      LastFieldIsOne(c.fields, key);
      if f :| f in c.fields && f.name == key {
        assert key in Keys(c.fields);
      }
    }
  }

  // ---- a record it has been applied to ----

  /** `Number` of a number and `String` of a string are that number and that string. */
  ghost predicate Honest(cv: Conversions) {
    (forall n: real :: cv.number(Num(n)) == Some(n)) && (forall s: string :: cv.text(Str(s)) == s)
  }

  /** The default of a field is one the field would leave as it is. */
  predicate Settled(cv: Conversions, f: FieldDef) {
    f.onError.ToDefault? ==>
      var d := OrNull(f.default);
      if d == Null then f.nullable
      else CoerceValue(cv, d, f.sqlType) == Some(d) || CoerceValue(cv, d, f.sqlType) == None
  }

  /** What fits as some value fits as that value again. */
  lemma FitsAgain(cv: Conversions, value: Value, sqlType: string)
    requires Honest(cv) && value != Undefined && value != Null && CoerceValue(cv, value, sqlType).Some?
    ensures var v := CoerceValue(cv, value, sqlType).value;
            v != Null && v != Undefined && CoerceValue(cv, v, sqlType) == Some(v)
  {
    hide CoercionFor;
  }

  lemma FieldAgain(cv: Conversions, record: Record, output: Record, f: FieldDef)
    requires Honest(cv) && Settled(cv, f) && f.name in output && FieldValue(cv, record, f) == Some(output[f.name])
    ensures FieldValue(cv, output, f) == Some(output[f.name])
  {
    hide CoerceValue;
    var raw := Lookup(record, f.name);
    FieldValueDefined(cv, record, f);
    if raw != Undefined && raw != Null && CoerceValue(cv, raw, f.sqlType).Some? {
      FitsAgain(cv, raw, f.sqlType);
    }
  }

  predicate NamesOnce(fields: seq<FieldDef>) {
    forall i, j :: 0 <= i < j < |fields| ==> fields[i].name != fields[j].name
  }

  lemma {:induction false} OnlyField(fields: seq<FieldDef>, f: FieldDef)
    requires NamesOnce(fields) && f in fields
    ensures LastField(fields, f.name) == Some(f)
    decreases |fields|
  {
    var front, last := fields[..|fields| - 1], fields[|fields| - 1];
    if f != last {
      assert f in front;
      var i :| 0 <= i < |front| && front[i] == f;
      assert fields[i].name != fields[|fields| - 1].name;
      OnlyField(front, f);
    }
  }

  /** A contract leaves the records it has accepted as they are, when it is applied again. */
  lemma AppliedAgain(cv: Conversions, c: ContractDef, record: Record, output: Record)
    requires Honest(cv) && NamesOnce(c.fields) && forall f :: f in c.fields ==> Settled(cv, f)
    requires Accepts(cv, c, record) && IsOutput(cv, c, record, output)
    ensures Accepts(cv, c, output) && IsOutput(cv, c, output, output)
  {
    hide Settled, FieldValue;
    forall f | f in c.fields
      ensures f.name in output && FieldValue(cv, output, f) == Some(output[f.name])
    {
      OnlyField(c.fields, f);
      assert Known(c.fields, f.name);
      FieldAgain(cv, record, output, f);
    }
    forall name | Known(c.fields, name)
      ensures name in output && Some(output[name]) == FieldValue(cv, output, LastField(c.fields, name).value)
    {
      LastFieldIsOne(c.fields, name);
      LastFieldNamed(c.fields, name);
    }
  }

  lemma {:induction false} LastFieldNamed(fields: seq<FieldDef>, name: string)
    ensures LastField(fields, name).Some? ==> LastField(fields, name).value.name == name
    decreases |fields|
  {
    if fields != [] && fields[|fields| - 1].name != name {
      LastFieldNamed(fields[..|fields| - 1], name);
    }
  }
}
