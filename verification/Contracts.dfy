/** Edge contracts: coercing, defaulting and rejecting the records of a batch. */
module Contracts {
  import opened Wrappers
  import opened Definitions
  import opened Strings

  type Record = map<string, Value>

  /** `Number(value)` when that is finite, and `String(value)`. */
  datatype Conversions = Conversions(number: Value -> Option<real>, text: Value -> string)

  datatype Coercion = ToInteger | ToNumber | ToBoolean | ToText | Unchanged

  function CoercionFor(sqlType: string): Coercion {
    var t := Lower(sqlType);
    if "int" <= t || t == "integer" || t == "bigint" then ToInteger
    else if "numeric" <= t || "decimal" <= t || t == "float" || t == "double" || t == "real" then ToNumber
    else if t == "boolean" || t == "bool" then ToBoolean
    else if "varchar" <= t || t == "text" || t == "string" then ToText
    else Unchanged
  }

  /** `None` where `coerceValue` throws. */
  function CoerceValue(cv: Conversions, value: Value, sqlType: string): Option<Value> {
    match CoercionFor(sqlType)
    case ToInteger =>
      var n := cv.number(value);
      if n.None? || n.value.Floor as real != n.value then None else Some(Num(n.value))
    case ToNumber =>
      var n := cv.number(value);
      if n.None? then None else Some(Num(n.value))
    case ToBoolean =>
      if value.Bool? then Some(value)
      else if value == Str("true") || value == Str("1") then Some(Bool(true))
      else if value == Str("false") || value == Str("0") then Some(Bool(false))
      else None
    case ToText => Some(Str(cv.text(value)))
    case Unchanged => Some(value)
  }

  /** `value ?? null`. */
  function OrNull(v: Option<Value>): Value {
    if v.None? || v.value == Undefined then Null else v.value
  }

  function Lookup(record: Record, key: string): Value {
    if key in record then record[key] else Undefined
  }

  /** What a field of the contract makes of a record: a value, or `None` to reject the record. */
  function FieldValue(cv: Conversions, record: Record, field: FieldDef): Option<Value> {
    var raw := Lookup(record, field.name);
    if raw == Undefined || raw == Null then
      if field.nullable then Some(Null) else None
    else
      var coerced := CoerceValue(cv, raw, field.sqlType);
      if coerced.Some? then coerced
      else match field.onError
        case ToNull => if field.nullable then Some(Null) else None
        case ToDefault => Some(OrNull(field.default))
        case Reject => None
  }

  /** The last field of that name, which decides its value. */
  function LastField(fields: seq<FieldDef>, name: string): Option<FieldDef> {
    if fields == [] then None
    else if fields[|fields| - 1].name == name then Some(fields[|fields| - 1])
    else LastField(fields[..|fields| - 1], name)
  }

  predicate Known(fields: seq<FieldDef>, name: string) {
    LastField(fields, name).Some?
  }

  /** A record is accepted when every field yields a value and no unknown key is forbidden. */
  ghost predicate Accepts(cv: Conversions, c: ContractDef, record: Record) {
    && (forall f :: f in c.fields ==> FieldValue(cv, record, f).Some?)
    && (c.unknownFields.Fail? ==> forall key :: key in record ==> Known(c.fields, key))
  }

  /** The accepted form of a record: contract fields as coerced, other keys only when passed through. */
  ghost predicate IsOutput(cv: Conversions, c: ContractDef, record: Record, output: Record) {
    && FieldsOut(cv, c.fields, record, output)
    && forall key :: !Known(c.fields, key) ==>
         if c.unknownFields.Passthrough? && key in record then key in output && output[key] == record[key]
         else key !in output
  }

  ghost predicate FieldsOut(cv: Conversions, fields: seq<FieldDef>, record: Record, output: Record) {
    forall name :: Known(fields, name) ==>
      name in output && Some(output[name]) == FieldValue(cv, record, LastField(fields, name).value)
  }

  method ApplyRecord(cv: Conversions, record: Record, c: ContractDef) returns (r: Option<Record>)
    ensures r.Some? <==> Accepts(cv, c, record)
    ensures r.Some? ==> IsOutput(cv, c, record, r.value)
  {
    var output: Record := map[];
    for i := 0 to |c.fields|
      invariant forall f :: f in c.fields[..i] ==> FieldValue(cv, record, f).Some?
      invariant FieldsOut(cv, c.fields[..i], record, output)
      invariant forall key :: key in output ==> Known(c.fields[..i], key)
    {
      var field := c.fields[i];
      var value := FieldValue(cv, record, field);
      assert c.fields[..i + 1] == c.fields[..i] + [field];
      assert c.fields[..i + 1][..i] == c.fields[..i];
      if value.None? {
        assert field in c.fields;
        return None;
      }
      output := output[field.name := value.value];
    }
    assert c.fields[..|c.fields|] == c.fields;
    r := CopyUnknown(cv, record, c, output);
  }

  /** The second loop: keys of the record the contract does not name. */
  method CopyUnknown(cv: Conversions, record: Record, c: ContractDef, fields: Record) returns (r: Option<Record>)
    requires FieldsOut(cv, c.fields, record, fields)
    requires forall key :: key in fields ==> Known(c.fields, key)
    ensures r.Some? <==> (c.unknownFields.Fail? ==> forall key :: key in record ==> Known(c.fields, key))
    ensures r.Some? ==> IsOutput(cv, c, record, r.value)
  {
    var output, rest := fields, record.Keys;
    while rest != {}
      invariant rest <= record.Keys
      invariant FieldsOut(cv, c.fields, record, output)
      invariant forall key :: !Known(c.fields, key) ==>
        if c.unknownFields.Passthrough? && key in record.Keys - rest then key in output && output[key] == record[key]
        else key !in output
      invariant c.unknownFields.Fail? ==> forall key :: key in record.Keys - rest ==> Known(c.fields, key)
      decreases |rest|
    {
      var key :| key in rest;
      rest := rest - {key};
      if !Known(c.fields, key) {
        if c.unknownFields.Fail? { return None; }
        if c.unknownFields.Passthrough? { output := output[key := record[key]]; }
      }
    }
    r := Some(output);
  }

  /** The accepted form is unique. */
  lemma OutputUnique(cv: Conversions, c: ContractDef, record: Record, a: Record, b: Record)
    requires IsOutput(cv, c, record, a) && IsOutput(cv, c, record, b)
    ensures a == b
  {
    forall key
      ensures key in a <==> key in b
      ensures key in a ==> a[key] == b[key]
    {
      assert Known(c.fields, key) ==> Some(a[key]) == Some(b[key]);
    }
  }

  // ---- batches ----

  /** The records of a batch a contract turns away, in order. */
  ghost function Rejected(cv: Conversions, c: ContractDef, records: seq<Record>): seq<Record> {
    if records == [] then [] else
      var last := records[|records| - 1];
      Rejected(cv, c, records[..|records| - 1]) + if Accepts(cv, c, last) then [] else [last]
  }

  ghost function Kept(cv: Conversions, c: ContractDef, records: seq<Record>): seq<Record> {
    if records == [] then [] else
      var last := records[|records| - 1];
      Kept(cv, c, records[..|records| - 1]) + if Accepts(cv, c, last) then [last] else []
  }

  ghost predicate AreOutputs(cv: Conversions, c: ContractDef, kept: seq<Record>, outputs: seq<Record>) {
    |kept| == |outputs| && forall i :: 0 <= i < |kept| ==> IsOutput(cv, c, kept[i], outputs[i])
  }

  /** The accepted form as a value. */
  ghost function OutputOf(cv: Conversions, c: ContractDef, record: Record): Record
    requires Accepts(cv, c, record)
  {
    map key | key in Keys(c.fields) + record.Keys && (Known(c.fields, key) || c.unknownFields.Passthrough?) ::
      if Known(c.fields, key) then KnownValue(cv, c.fields, record, key) else Lookup(record, key)
  }

  ghost function Keys(fields: seq<FieldDef>): set<string> {
    set f | f in fields :: f.name
  }

  ghost function KnownValue(cv: Conversions, fields: seq<FieldDef>, record: Record, name: string): Value
    requires Known(fields, name)
  {
    OrNull(FieldValue(cv, record, LastField(fields, name).value))
  }

  lemma {:induction false} LastFieldIsOne(fields: seq<FieldDef>, name: string)
    ensures Known(fields, name) <==> name in Keys(fields)
    ensures Known(fields, name) ==> LastField(fields, name).value in fields
  {
    if fields != [] {
      var front, last := fields[..|fields| - 1], fields[|fields| - 1];
      LastFieldIsOne(front, name);
      assert fields == front + [last];
      assert last in fields && forall f :: f in front ==> f in fields;
    }
  }

  /** A contract field never yields `undefined`. */
  lemma FieldValueDefined(cv: Conversions, record: Record, f: FieldDef)
    ensures FieldValue(cv, record, f) != Some(Undefined)
  {
  }

  lemma OutputOfIsOutput(cv: Conversions, c: ContractDef, record: Record)
    requires Accepts(cv, c, record)
    ensures IsOutput(cv, c, record, OutputOf(cv, c, record))
  {
    forall name
      ensures Known(c.fields, name) ==> name in OutputOf(cv, c, record)
      ensures Known(c.fields, name) ==>
        Some(OutputOf(cv, c, record)[name]) == FieldValue(cv, record, LastField(c.fields, name).value)
      ensures Known(c.fields, name) <==> name in Keys(c.fields)
    {
      LastFieldIsOne(c.fields, name);
      if Known(c.fields, name) {
        FieldValueDefined(cv, record, LastField(c.fields, name).value);
      }
    }
  }

  ghost predicate Splits(cv: Conversions, c: ContractDef, records: seq<Record>, delivered: seq<Record>,
                         rejected: seq<Record>) {
    && AreOutputs(cv, c, Kept(cv, c, records), delivered)
    && rejected == Rejected(cv, c, records)
    && |delivered| + |rejected| == |records|
  }

  /** Each record is either delivered, in accepted form and in order, or rejected as it came. */
  method ApplyContract(cv: Conversions, records: seq<Record>, c: ContractDef)
    returns (delivered: seq<Record>, rejected: seq<Record>)
    ensures Splits(cv, c, records, delivered, rejected)
  {
    delivered, rejected := [], [];
    for i := 0 to |records|
      invariant Splits(cv, c, records[..i], delivered, rejected)
    {
      assert records[..i + 1] == records[..i] + [records[i]];
      var r := ApplyRecord(cv, records[i], c);
      if r.Some? {
        SplitKeeps(cv, c, records[..i], delivered, rejected, records[i], r.value);
        delivered := delivered + [r.value];
      } else {
        SplitRejects(cv, c, records[..i], delivered, rejected, records[i]);
        rejected := rejected + [records[i]];
      }
    }
    assert records[..|records|] == records;
  }

  lemma SplitKeeps(cv: Conversions, c: ContractDef, records: seq<Record>, delivered: seq<Record>,
                   rejected: seq<Record>, r: Record, o: Record)
    requires Splits(cv, c, records, delivered, rejected) && Accepts(cv, c, r) && IsOutput(cv, c, r, o)
    ensures Splits(cv, c, records + [r], delivered + [o], rejected)
  {
    assert (records + [r])[..|records|] == records;
    OutputsGrow(cv, c, Kept(cv, c, records), delivered, r, o);
  }

  lemma SplitRejects(cv: Conversions, c: ContractDef, records: seq<Record>, delivered: seq<Record>,
                     rejected: seq<Record>, r: Record)
    requires Splits(cv, c, records, delivered, rejected) && !Accepts(cv, c, r)
    ensures Splits(cv, c, records + [r], delivered, rejected + [r])
  {
    assert (records + [r])[..|records|] == records;
  }

  lemma {:induction false} OutputsExist(cv: Conversions, c: ContractDef, records: seq<Record>)
    ensures exists outputs :: AreOutputs(cv, c, Kept(cv, c, records), outputs)
  {
    if records == [] {
      assert AreOutputs(cv, c, Kept(cv, c, records), []);
    } else {
      var front, last := records[..|records| - 1], records[|records| - 1];
      OutputsExist(cv, c, front);
      var outputs :| AreOutputs(cv, c, Kept(cv, c, front), outputs);
      if Accepts(cv, c, last) {
        OutputOfIsOutput(cv, c, last);
        OutputsGrow(cv, c, Kept(cv, c, front), outputs, last, OutputOf(cv, c, last));
        assert AreOutputs(cv, c, Kept(cv, c, records), outputs + [OutputOf(cv, c, last)]);
      } else {
        assert AreOutputs(cv, c, Kept(cv, c, records), outputs);
      }
    }
  }

  lemma OutputsUnique(cv: Conversions, c: ContractDef, kept: seq<Record>, a: seq<Record>, b: seq<Record>)
    requires AreOutputs(cv, c, kept, a) && AreOutputs(cv, c, kept, b)
    ensures a == b
  {
    forall i | 0 <= i < |kept| ensures a[i] == b[i] {
      OutputUnique(cv, c, kept[i], a[i], b[i]);
    }
  }

  /** What a contract lets through: the kept records, each in its one accepted form. */
  ghost function Delivered(cv: Conversions, c: ContractDef, records: seq<Record>): (d: seq<Record>)
    ensures AreOutputs(cv, c, Kept(cv, c, records), d)
  {
    OutputsExist(cv, c, records);
    var outputs :| AreOutputs(cv, c, Kept(cv, c, records), outputs);
    outputs
  }

  lemma OutputsGrow(cv: Conversions, c: ContractDef, kept: seq<Record>, outputs: seq<Record>, r: Record, o: Record)
    requires AreOutputs(cv, c, kept, outputs) && IsOutput(cv, c, r, o)
    ensures AreOutputs(cv, c, kept + [r], outputs + [o])
  {
    forall i | 0 <= i < |kept| + 1 ensures IsOutput(cv, c, (kept + [r])[i], (outputs + [o])[i]) {
      if i < |kept| { assert (kept + [r])[i] == kept[i] && (outputs + [o])[i] == outputs[i]; }
    }
  }

  lemma {:induction false} CountsSplit(cv: Conversions, c: ContractDef, records: seq<Record>, r: Record)
    ensures multiset(records)[r] == multiset(Kept(cv, c, records))[r] + multiset(Rejected(cv, c, records))[r]
  {
    if records != [] {
      var front, last := records[..|records| - 1], records[|records| - 1];
      assert records == front + [last];
      CountsSplit(cv, c, front, r);
    }
  }

  /** Nothing is lost or duplicated by a contract: what came in is what was kept and what was rejected. */
  lemma ContractConserves(cv: Conversions, c: ContractDef, records: seq<Record>)
    ensures multiset(records) == multiset(Kept(cv, c, records)) + multiset(Rejected(cv, c, records))
  {
    forall r
      ensures multiset(records)[r] == multiset(Kept(cv, c, records))[r] + multiset(Rejected(cv, c, records))[r]
    {
      CountsSplit(cv, c, records, r);
    }
  }

  /** Acceptance alone decides which side a record falls on. */
  lemma {:induction false} ContractSorts(cv: Conversions, c: ContractDef, records: seq<Record>, r: Record)
    ensures r in Kept(cv, c, records) <==> r in records && Accepts(cv, c, r)
    ensures r in Rejected(cv, c, records) <==> r in records && !Accepts(cv, c, r)
  {
    if records != [] {
      var front, last := records[..|records| - 1], records[|records| - 1];
      ContractSorts(cv, c, front, r);
      assert records == front + [last];
    }
  }
}
