/** ModelIntrospector: turns a model class's fields into the records the shape generator reads. */
module Introspection {
  import opened Options
  import opened Rdf
  import opened Host

  /** The keys of the constraints map: the seven field bounds the introspector copies. */
  datatype Bound = MinLength | MaxLength | Pattern | Gt | Ge | Lt | Le

  /** The per-field dictionary built by `_extract_field_info`. */
  datatype FieldInfo = FieldInfo(
    fieldType: PyType,
    required: bool,
    default: Value,
    description: Option<string>,
    constraints: map<Bound, Scalar>)

  /** The dictionary built by `introspect_model`, without the validators and `Config` entries. */
  datatype ModelInfo = ModelInfo(name: string, fields: seq<(string, FieldInfo)>, doc: Option<string>)

  /** `field_info.regex.pattern` raises AttributeError when the regex is kept as text. */
  predicate PatternRaises(f: FieldSource)
  {
    f.regex.Some? && f.regex.value.RegexText?
  }

  /** `introspect_model`, and with it `generate_shape`, returns iff no field's regex is kept as text. */
  predicate Introspectable(cls: ModelClass)
  {
    forall i :: 0 <= i < |cls.fields| ==> !PatternRaises(cls.fields[i])
  }

  /** The bound `b` as the field declares it, converted to the value the map stores. */
  function Declared(f: FieldSource, b: Bound): Option<Scalar>
    requires !PatternRaises(f)
  {
    match b
    case MinLength => if f.minLength.Some? then Some(Int(f.minLength.value)) else None
    case MaxLength => if f.maxLength.Some? then Some(Int(f.maxLength.value)) else None
    case Pattern => if f.regex.Some? then Some(Str(f.regex.value.pattern)) else None
    case Gt => f.gt
    case Ge => f.ge
    case Lt => f.lt
    case Le => f.le
  }

  /** Adds `key := value` to `m` when the bound is present, as each `if ... is not None` does. */
  function PutIfPresent(m: map<Bound, Scalar>, key: Bound, value: Option<Scalar>): (r: map<Bound, Scalar>)
    ensures r.Keys == if value.Some? then m.Keys + {key} else m.Keys
    ensures forall k :: k in r ==> r[k] == if k == key && value.Some? then value.value else m[k]
  {
    if value.Some? then m[key := value.value] else m
  }

  /** The order in which `_extract_field_info` tests the seven bounds. */
  const ExtractOrder: seq<Bound> := [MinLength, MaxLength, Pattern, Gt, Ge, Lt, Le]

  /** The constraints map after testing `bs` in order, each `if ... is not None` adding its entry. */
  function Fill(f: FieldSource, bs: seq<Bound>): map<Bound, Scalar>
    requires !PatternRaises(f)
    decreases |bs|
  {
    if |bs| == 0 then map[]
    else PutIfPresent(Fill(f, bs[..|bs| - 1]), bs[|bs| - 1], Declared(f, bs[|bs| - 1]))
  }

  /** The constraints map of a field: all seven bounds, tested in the order `_extract_field_info` uses. */
  function Constraints(f: FieldSource): map<Bound, Scalar>
    requires !PatternRaises(f)
  {
    Fill(f, ExtractOrder)
  }

  /** After testing `bs`, a bound is a key iff it was tested and is declared, with its declared value. */
  lemma {:induction false} FillHoldsDeclared(f: FieldSource, bs: seq<Bound>, b: Bound)
    requires !PatternRaises(f)
    ensures b in Fill(f, bs) <==> b in bs && Declared(f, b).Some?
    ensures b in Fill(f, bs) ==> Fill(f, bs)[b] == Declared(f, b).value
    decreases |bs|
  {
    if |bs| > 0 {
      var front := bs[..|bs| - 1];
      FillHoldsDeclared(f, front, b);
      assert bs == front + [bs[|bs| - 1]];
    }
  }

  /** Each bound is a key of the constraints map exactly when the field declares it. */
  lemma ConstraintsAreDeclaredBounds(f: FieldSource, b: Bound)
    requires !PatternRaises(f)
    ensures b in Constraints(f) <==> Declared(f, b).Some?
    ensures b in Constraints(f) ==> Constraints(f)[b] == Declared(f, b).value
  {
    FillHoldsDeclared(f, ExtractOrder, b);
    assert b in ExtractOrder;
  }

  /** `_extract_field_info`: the type, requiredness, default, description and constraints of a field. */
  function ExtractFieldInfo(f: FieldSource): (r: FieldInfo)
    requires !PatternRaises(f)
    ensures r.fieldType == f.outerType
    ensures r.required == f.required
    ensures r.description == f.description
    ensures r.required ==> r.default == Null
    ensures !r.required ==> r.default == f.default
    ensures forall b :: b in r.constraints <==> Declared(f, b).Some?
    ensures forall b :: b in r.constraints ==> r.constraints[b] == Declared(f, b).value
  {
    forall b ensures b in Constraints(f) <==> Declared(f, b).Some?
      ensures b in Constraints(f) ==> Constraints(f)[b] == Declared(f, b).value
    {
      ConstraintsAreDeclaredBounds(f, b);
    }
    FieldInfo(f.outerType, f.required, if !f.required then f.default else Null, f.description, Constraints(f))
  }

  /** `introspect_model`: the class name, its docstring and each field's info, in field order. */
  function IntrospectModel(cls: ModelClass): (r: ModelInfo)
    requires Introspectable(cls)
    ensures r.name == cls.name && r.doc == cls.doc
    ensures |r.fields| == |cls.fields|
    ensures forall i :: 0 <= i < |r.fields| ==>
      r.fields[i].0 == cls.fields[i].name && r.fields[i].1 == ExtractFieldInfo(cls.fields[i])
  {
    ModelInfo(cls.name,
              seq(|cls.fields|, i requires 0 <= i < |cls.fields| =>
                (cls.fields[i].name, ExtractFieldInfo(cls.fields[i]))),
              cls.doc)
  }
}
