/**
 * `LangGraphSemantic._instance_to_rdf`: a recursive fold of a model instance into triples, and
 * the flattened graph `SemanticModelRegistry.validate_instance` builds for validation.
 */
module Instances {
  import opened Rdf
  import opened Host
  import opened Strings

  function DigitChar(d: nat): char
    requires d < 10
  {
    ('0' as int + d) as char
  }

  /** Python's `str(n)` for a natural number. */
  function Decimal(n: nat): string
    decreases n
  {
    if n < 10 then [DigitChar(n)] else Decimal(n / 10) + [DigitChar(n % 10)]
  }

  /** Reading a string of decimal digits back as a number. */
  function ReadDecimal(s: string): nat
  {
    if |s| == 0 then 0
    else
      var d := s[|s| - 1] as int - '0' as int;
      ReadDecimal(s[..|s| - 1]) * 10 + (if 0 <= d then d else 0)
  }

  /** `str(n)` is a non-empty string of digits that reads back as `n`. */
  lemma {:induction false} DecimalRoundTrip(n: nat)
    ensures |Decimal(n)| >= 1
    ensures forall k :: 0 <= k < |Decimal(n)| ==> '0' <= Decimal(n)[k] <= '9'
    ensures ReadDecimal(Decimal(n)) == n
    decreases n
  {
    if n >= 10 {
      DecimalRoundTrip(n / 10);
      var front := Decimal(n / 10);
      var text := front + [DigitChar(n % 10)];
      assert Decimal(n) == text;
      assert text[..|front|] == front;
      assert text[|text| - 1] as int - '0' as int == n % 10;
      assert forall k :: 0 <= k < |front| ==> text[k] == front[k];
    }
  }

  /** Distinct numbers are written differently. */
  lemma DecimalInjective(a: nat, b: nat)
    requires Decimal(a) == Decimal(b)
    ensures a == b
  {
    DecimalRoundTrip(a);
    DecimalRoundTrip(b);
  }

  /** `f"{base_namespace}{model_name}_{id(instance)}"`. */
  function InstanceUri(ns: string, inst: Instance): string
  {
    ns + inst.cls.name + "_" + Decimal(inst.oid)
  }

  /** The instance's one `rdf:type` triple, naming `base_namespace + model_name` as its class. */
  function TypeTriple(ns: string, inst: Instance): Triple
  {
    Triple(Iri(InstanceUri(ns, inst)), RdfType, Iri(ns + inst.cls.name))
  }

  /** `(instance, ns + field, Literal(v))`. */
  function ScalarTriple(ns: string, subject: Term, field: string, v: Scalar): Triple
  {
    Triple(subject, Iri(ns + field), Lit(Native(v)))
  }

  /** `(instance, ns + field, nested_uri)`. */
  function LinkTriple(ns: string, subject: Term, field: string, m: Instance): Triple
  {
    Triple(subject, Iri(ns + field), Iri(InstanceUri(ns, m)))
  }

  function InstanceToRdf(ns: string, inst: Instance): Graph
    decreases inst, 1
  {
    var subject := Iri(InstanceUri(ns, inst));
    {TypeTriple(ns, inst)}
    + set i, t | 0 <= i < |inst.values|
                 && t in FieldToRdf(ns, subject, inst.values[i].0, inst.values[i].1)
              :: t
  }

  /** What one field contributes: None nothing, a scalar one triple, a list its items, a model itself. */
  function FieldToRdf(ns: string, subject: Term, field: string, v: Value): Graph
    decreases v, 0
  {
    match v
    case Atom(s) => {ScalarTriple(ns, subject, field, s)}
    case Items(items) =>
      set j, t | 0 <= j < |items| && t in ItemToRdf(ns, subject, field, items[j]) :: t
    case Nested(m) => NestedToRdf(ns, subject, field, m)
    case Null => {}
    case Opaque(_) => {}
  }

  /** What one list item contributes: scalars and models as a field would; anything else nothing. */
  function ItemToRdf(ns: string, subject: Term, field: string, item: Value): Graph
    decreases item, 0
  {
    match item
    case Atom(s) => {ScalarTriple(ns, subject, field, s)}
    case Nested(m) => NestedToRdf(ns, subject, field, m)
    case _ => {}
  }

  /** `graph += self._instance_to_rdf(m)` followed by the link to `m`. */
  function NestedToRdf(ns: string, subject: Term, field: string, m: Instance): Graph
    decreases m, 2
  {
    InstanceToRdf(ns, m) + {LinkTriple(ns, subject, field, m)}
  }

  /** The flattened graph of `validate_instance`: the type triple and one triple per scalar field. */
  function ValidationGraph(ns: string, inst: Instance): Graph
  {
    var subject := Iri(InstanceUri(ns, inst));
    {TypeTriple(ns, inst)}
    + set i | 0 <= i < |inst.values| && inst.values[i].1.Atom?
            :: ScalarTriple(ns, subject, inst.values[i].0, inst.values[i].1.scalar)
  }

  // ---------------------------------------------------------------------------------------
  // Nested instances and the subjects they contribute

  /** The instances the fold recurses into: nested models in fields and in list items, transitively. */
  ghost function SubInstances(inst: Instance): set<Instance>
    decreases inst, 1
  {
    set i, m | 0 <= i < |inst.values| && m in ValueSubInstances(inst.values[i].1) :: m
  }

  ghost function ValueSubInstances(v: Value): set<Instance>
    decreases v, 0
  {
    match v
    case Items(items) => set j, m | 0 <= j < |items| && m in ItemSubInstances(items[j]) :: m
    case Nested(m) => {m} + SubInstances(m)
    case _ => {}
  }

  ghost function ItemSubInstances(item: Value): set<Instance>
    decreases item, 0
  {
    match item
    case Nested(m) => {m} + SubInstances(m)
    case _ => {}
  }

  /** The subject terms a set of instances is converted under. */
  ghost function UriTerms(ns: string, insts: set<Instance>): set<Term>
  {
    set m | m in insts :: Iri(InstanceUri(ns, m))
  }

  /** Every triple of an instance's graph is about the instance itself or about one of its nested instances. */
  lemma {:induction false} InstanceSubjects(ns: string, inst: Instance)
    ensures forall t :: t in InstanceToRdf(ns, inst) ==>
      t.s == Iri(InstanceUri(ns, inst)) || t.s in UriTerms(ns, SubInstances(inst))
    decreases inst, 1
  {
    var subject := Iri(InstanceUri(ns, inst));
    forall t | t in InstanceToRdf(ns, inst) && t.s != subject
      ensures t.s in UriTerms(ns, SubInstances(inst))
    {
      var i :| 0 <= i < |inst.values| && t in FieldToRdf(ns, subject, inst.values[i].0, inst.values[i].1);
      FieldTriplesShape(ns, subject, inst.values[i].0, inst.values[i].1);
      var m :| m in ValueSubInstances(inst.values[i].1) && t.s == Iri(InstanceUri(ns, m));
      assert m in SubInstances(inst);
    }
  }

  /**
   * A field contributes triples about the converted instance under the field's predicate,
   * plus triples about the instances nested in the field's value.
   */
  lemma {:induction false} FieldTriplesShape(ns: string, subject: Term, field: string, v: Value)
    ensures forall t :: t in FieldToRdf(ns, subject, field, v) ==>
      (t.s == subject && t.p == Iri(ns + field)) || t.s in UriTerms(ns, ValueSubInstances(v))
    decreases v, 0
  {
    match v
    case Items(items) =>
      forall t | t in FieldToRdf(ns, subject, field, v) && !(t.s == subject && t.p == Iri(ns + field))
        ensures t.s in UriTerms(ns, ValueSubInstances(v))
      {
        var j :| 0 <= j < |items| && t in ItemToRdf(ns, subject, field, items[j]);
        ItemTriplesShape(ns, subject, field, items[j]);
        var m :| m in ItemSubInstances(items[j]) && t.s == Iri(InstanceUri(ns, m));
        assert m in ValueSubInstances(v);
      }
    case Nested(m) =>
      InstanceSubjects(ns, m);
    case _ =>
  }

  lemma {:induction false} ItemTriplesShape(ns: string, subject: Term, field: string, item: Value)
    ensures forall t :: t in ItemToRdf(ns, subject, field, item) ==>
      (t.s == subject && t.p == Iri(ns + field)) || t.s in UriTerms(ns, ItemSubInstances(item))
    decreases item, 0
  {
    match item
    case Nested(m) =>
      InstanceSubjects(ns, m);
    case _ =>
  }

  lemma NestedUrisOfField(ns: string, inst: Instance, i: nat)
    requires i < |inst.values|
    ensures UriTerms(ns, ValueSubInstances(inst.values[i].1)) <= UriTerms(ns, SubInstances(inst))
  {
  }

  /**
   * The triples about the instance itself are its type triple and triples under its fields'
   * predicates, provided no nested instance is converted under the same URI.
   */
  lemma OwnTriples(ns: string, inst: Instance)
    requires Iri(InstanceUri(ns, inst)) !in UriTerms(ns, SubInstances(inst))
    ensures forall t :: t in InstanceToRdf(ns, inst) && t.s == Iri(InstanceUri(ns, inst)) ==>
      t == TypeTriple(ns, inst) || exists i :: 0 <= i < |inst.values| && t.p == Iri(ns + inst.values[i].0)
  {
    var subject := Iri(InstanceUri(ns, inst));
    forall t | t in InstanceToRdf(ns, inst) && t.s == subject && t != TypeTriple(ns, inst)
      ensures exists i :: 0 <= i < |inst.values| && t.p == Iri(ns + inst.values[i].0)
    {
      var i :| 0 <= i < |inst.values| && t in FieldToRdf(ns, subject, inst.values[i].0, inst.values[i].1);
      FieldTriplesShape(ns, subject, inst.values[i].0, inst.values[i].1);
      NestedUrisOfField(ns, inst, i);
    }
  }

  lemma NotPrefixNotSpelled(ns: string, x: string)
    requires !(ns <= x)
    ensures forall f :: ns + f != x
  {
    forall f ensures ns + f != x {
      assert ns <= ns + f;
    }
  }

  /**
   * The instance URI has exactly one `rdf:type` triple, whose object is `ns + model_name`,
   * provided no nested instance is converted under the same URI (distinct live objects have
   * distinct `id()`s) and the namespace cannot spell `rdf:type` with a field name.
   */
  lemma TypeTripleUnique(ns: string, inst: Instance)
    requires Iri(InstanceUri(ns, inst)) !in UriTerms(ns, SubInstances(inst))
    requires !(ns <= RdfTypeIri)
    ensures Statements(InstanceToRdf(ns, inst), Iri(InstanceUri(ns, inst)), RdfType) == {TypeTriple(ns, inst)}
  {
    OwnTriples(ns, inst);
    NotPrefixNotSpelled(ns, RdfTypeIri);
  }

  /** Splitting `name + "_" + suffix` where the suffix holds no underscore is unambiguous. */
  lemma SplitAtLastUnderscore(n1: string, d1: string, n2: string, d2: string)
    requires forall k :: 0 <= k < |d1| ==> d1[k] != '_'
    requires forall k :: 0 <= k < |d2| ==> d2[k] != '_'
    requires n1 + "_" + d1 == n2 + "_" + d2
    ensures n1 == n2 && d1 == d2
  {
    var x := n1 + "_" + d1;
    assert x[|x| - |d1| - 1] == '_' && x[|x| - |d2| - 1] == '_';
    assert forall k :: |x| - |d1| <= k < |x| ==> x[k] == d1[k - (|x| - |d1|)];
    assert forall k :: |x| - |d2| <= k < |x| ==> x[k] == d2[k - (|x| - |d2|)];
    assert |d1| == |d2|;
    assert d1 == x[|x| - |d1|..] && d2 == x[|x| - |d2|..];
    assert n1 == x[..|n1|] && n2 == x[..|n2|];
  }

  /**
   * Under one namespace an instance URI determines the model name and the `id()`: the digits
   * after the last underscore are the id, what precedes them is the name.
   */
  lemma InstanceUriInjective(ns: string, a: Instance, b: Instance)
    ensures InstanceUri(ns, a) == InstanceUri(ns, b) <==> a.cls.name == b.cls.name && a.oid == b.oid
  {
    if InstanceUri(ns, a) == InstanceUri(ns, b) {
      var x, y := a.cls.name + "_" + Decimal(a.oid), b.cls.name + "_" + Decimal(b.oid);
      UriAfterNamespace(ns, a);
      UriAfterNamespace(ns, b);
      PrefixCancel(ns, x, y);
      DecimalRoundTrip(a.oid);
      DecimalRoundTrip(b.oid);
      SplitAtLastUnderscore(a.cls.name, Decimal(a.oid), b.cls.name, Decimal(b.oid));
      DecimalInjective(a.oid, b.oid);
    }
  }

  lemma UriAfterNamespace(ns: string, a: Instance)
    ensures InstanceUri(ns, a) == ns + (a.cls.name + "_" + Decimal(a.oid))
  {
  }

  /**
   * The type-triple guarantee in terms of `id()`: it holds whenever no nested instance
   * has both the root's model name and the root's `id()`.
   */
  lemma TypeTripleUniqueForDistinctIds(ns: string, inst: Instance)
    requires forall m :: m in SubInstances(inst) ==> m.cls.name != inst.cls.name || m.oid != inst.oid
    requires !(ns <= RdfTypeIri)
    ensures Statements(InstanceToRdf(ns, inst), Iri(InstanceUri(ns, inst)), RdfType) == {TypeTriple(ns, inst)}
  {
    forall m | m in SubInstances(inst) ensures InstanceUri(ns, m) != InstanceUri(ns, inst) {
      InstanceUriInjective(ns, m, inst);
    }
    TypeTripleUnique(ns, inst);
  }

  // ---------------------------------------------------------------------------------------
  // What each kind of field contributes

  /** A scalar field yields `(instance, ns + field, Literal(v))`. */
  lemma ScalarFieldTriple(ns: string, inst: Instance, i: nat)
    requires i < |inst.values| && inst.values[i].1.Atom?
    ensures ScalarTriple(ns, Iri(InstanceUri(ns, inst)), inst.values[i].0, inst.values[i].1.scalar)
            in InstanceToRdf(ns, inst)
  {
    var subject := Iri(InstanceUri(ns, inst));
    assert ScalarTriple(ns, subject, inst.values[i].0, inst.values[i].1.scalar)
           in FieldToRdf(ns, subject, inst.values[i].0, inst.values[i].1);
  }

  /** Each scalar item of a list field yields a triple under the same field predicate. */
  lemma ListScalarTriple(ns: string, inst: Instance, i: nat, j: nat)
    requires i < |inst.values| && inst.values[i].1.Items?
    requires j < |inst.values[i].1.items| && inst.values[i].1.items[j].Atom?
    ensures ScalarTriple(ns, Iri(InstanceUri(ns, inst)), inst.values[i].0, inst.values[i].1.items[j].scalar)
            in InstanceToRdf(ns, inst)
  {
    var subject := Iri(InstanceUri(ns, inst));
    var (field, v) := inst.values[i];
    var t := ScalarTriple(ns, subject, field, v.items[j].scalar);
    assert t in ItemToRdf(ns, subject, field, v.items[j]);
    assert t in FieldToRdf(ns, subject, field, v);
  }

  /**
   * A nested-model field brings the nested graph in whole, plus a link whose object is the
   * URI the nested conversion uses as its own subject.
   */
  lemma NestedFieldTriples(ns: string, inst: Instance, i: nat)
    requires i < |inst.values| && inst.values[i].1.Nested?
    ensures InstanceToRdf(ns, inst.values[i].1.inst) <= InstanceToRdf(ns, inst)
    ensures LinkTriple(ns, Iri(InstanceUri(ns, inst)), inst.values[i].0, inst.values[i].1.inst)
            in InstanceToRdf(ns, inst)
    ensures LinkTriple(ns, Iri(InstanceUri(ns, inst)), inst.values[i].0, inst.values[i].1.inst).o
         == TypeTriple(ns, inst.values[i].1.inst).s
  {
    var subject := Iri(InstanceUri(ns, inst));
    var (field, v) := inst.values[i];
    forall t | t in NestedToRdf(ns, subject, field, v.inst) ensures t in InstanceToRdf(ns, inst) {
      assert t in FieldToRdf(ns, subject, field, v);
    }
  }

  /** The same holds for a nested model that is an item of a list field. */
  lemma NestedItemTriples(ns: string, inst: Instance, i: nat, j: nat)
    requires i < |inst.values| && inst.values[i].1.Items?
    requires j < |inst.values[i].1.items| && inst.values[i].1.items[j].Nested?
    ensures InstanceToRdf(ns, inst.values[i].1.items[j].inst) <= InstanceToRdf(ns, inst)
    ensures LinkTriple(ns, Iri(InstanceUri(ns, inst)), inst.values[i].0, inst.values[i].1.items[j].inst)
            in InstanceToRdf(ns, inst)
    ensures LinkTriple(ns, Iri(InstanceUri(ns, inst)), inst.values[i].0, inst.values[i].1.items[j].inst).o
         == TypeTriple(ns, inst.values[i].1.items[j].inst).s
  {
    var subject := Iri(InstanceUri(ns, inst));
    var (field, v) := inst.values[i];
    forall t | t in NestedToRdf(ns, subject, field, v.items[j].inst) ensures t in InstanceToRdf(ns, inst) {
      assert t in ItemToRdf(ns, subject, field, v.items[j]);
      assert t in FieldToRdf(ns, subject, field, v);
    }
  }

  /** A list item the fold skips: neither a scalar nor a model (None, a nested list, a dict, ...). */
  predicate InertItem(item: Value)
  {
    !item.Atom? && !item.Nested?
  }

  /** A field the fold skips: None, an unhandled kind, or a list of skipped items. */
  predicate InertField(v: Value)
  {
    v.Null? || v.Opaque? || (v.Items? && forall j :: 0 <= j < |v.items| ==> InertItem(v.items[j]))
  }

  function Without<T>(s: seq<T>, i: nat): (r: seq<T>)
    requires i < |s|
    ensures |r| == |s| - 1
    ensures forall k :: 0 <= k < |r| ==> r[k] == if k < i then s[k] else s[k + 1]
  {
    s[..i] + s[i + 1..]
  }

  /** None-valued fields, and fields of any kind the fold skips, contribute no triples. */
  lemma InertFieldContributesNothing(ns: string, inst: Instance, i: nat)
    requires i < |inst.values| && InertField(inst.values[i].1)
    ensures InstanceToRdf(ns, inst.(values := Without(inst.values, i))) == InstanceToRdf(ns, inst)
  {
    var inst' := inst.(values := Without(inst.values, i));
    var subject := Iri(InstanceUri(ns, inst));
    assert InstanceUri(ns, inst') == InstanceUri(ns, inst);
    assert FieldToRdf(ns, subject, inst.values[i].0, inst.values[i].1) == {};
    forall t | t in InstanceToRdf(ns, inst') ensures t in InstanceToRdf(ns, inst) {
      if t != TypeTriple(ns, inst') {
        var k :| 0 <= k < |inst'.values| && t in FieldToRdf(ns, subject, inst'.values[k].0, inst'.values[k].1);
        var k' := if k < i then k else k + 1;
        assert t in FieldToRdf(ns, subject, inst.values[k'].0, inst.values[k'].1);
      }
    }
    forall t | t in InstanceToRdf(ns, inst) ensures t in InstanceToRdf(ns, inst') {
      if t != TypeTriple(ns, inst) {
        var k :| 0 <= k < |inst.values| && t in FieldToRdf(ns, subject, inst.values[k].0, inst.values[k].1);
        assert k != i;
        var k' := if k < i then k else k - 1;
        assert t in FieldToRdf(ns, subject, inst'.values[k'].0, inst'.values[k'].1);
      }
    }
  }

  /** Inside a list, items the fold skips contribute no triples either. */
  lemma InertItemContributesNothing(ns: string, subject: Term, field: string, items: seq<Value>, j: nat)
    requires j < |items| && InertItem(items[j])
    ensures FieldToRdf(ns, subject, field, Items(Without(items, j))) == FieldToRdf(ns, subject, field, Items(items))
  {
    var items' := Without(items, j);
    assert ItemToRdf(ns, subject, field, items[j]) == {};
    forall t | t in FieldToRdf(ns, subject, field, Items(items')) ensures t in FieldToRdf(ns, subject, field, Items(items)) {
      var k :| 0 <= k < |items'| && t in ItemToRdf(ns, subject, field, items'[k]);
      var k' := if k < j then k else k + 1;
      assert t in ItemToRdf(ns, subject, field, items[k']);
    }
    forall t | t in FieldToRdf(ns, subject, field, Items(items)) ensures t in FieldToRdf(ns, subject, field, Items(items')) {
      var k :| 0 <= k < |items| && t in ItemToRdf(ns, subject, field, items[k]);
      assert k != j;
      var k' := if k < j then k else k - 1;
      assert t in ItemToRdf(ns, subject, field, items'[k']);
    }
  }

  // ---------------------------------------------------------------------------------------
  // The validation graph

  /** The validation graph is a part of the full conversion. */
  lemma ValidationGraphWithin(ns: string, inst: Instance)
    ensures ValidationGraph(ns, inst) <= InstanceToRdf(ns, inst)
  {
    forall i | 0 <= i < |inst.values| && inst.values[i].1.Atom?
      ensures ScalarTriple(ns, Iri(InstanceUri(ns, inst)), inst.values[i].0, inst.values[i].1.scalar)
              in InstanceToRdf(ns, inst)
    {
      ScalarFieldTriple(ns, inst, i);
    }
  }

  /** For an instance without list or nested fields the two conversions coincide. */
  lemma ValidationGraphOfFlatInstance(ns: string, inst: Instance)
    requires forall i :: 0 <= i < |inst.values| ==> !inst.values[i].1.Items? && !inst.values[i].1.Nested?
    ensures ValidationGraph(ns, inst) == InstanceToRdf(ns, inst)
  {
    ValidationGraphWithin(ns, inst);
    var subject := Iri(InstanceUri(ns, inst));
    forall t | t in InstanceToRdf(ns, inst) ensures t in ValidationGraph(ns, inst) {
      if t != TypeTriple(ns, inst) {
        var i :| 0 <= i < |inst.values| && t in FieldToRdf(ns, subject, inst.values[i].0, inst.values[i].1);
        assert inst.values[i].1.Atom?;
      }
    }
  }

  /** List and nested fields put nothing into the validation graph. */
  lemma ValidationGraphSkipsStructured(ns: string, inst: Instance, i: nat)
    requires i < |inst.values| && !inst.values[i].1.Atom?
    ensures ValidationGraph(ns, inst.(values := Without(inst.values, i))) == ValidationGraph(ns, inst)
  {
    var inst' := inst.(values := Without(inst.values, i));
    var subject := Iri(InstanceUri(ns, inst));
    assert InstanceUri(ns, inst') == InstanceUri(ns, inst);
    forall t | t in ValidationGraph(ns, inst') ensures t in ValidationGraph(ns, inst) {
      if t != TypeTriple(ns, inst') {
        var k :| 0 <= k < |inst'.values| && inst'.values[k].1.Atom?
          && t == ScalarTriple(ns, subject, inst'.values[k].0, inst'.values[k].1.scalar);
        var k' := if k < i then k else k + 1;
        assert t == ScalarTriple(ns, subject, inst.values[k'].0, inst.values[k'].1.scalar);
      }
    }
    forall t | t in ValidationGraph(ns, inst) ensures t in ValidationGraph(ns, inst') {
      if t != TypeTriple(ns, inst) {
        var k :| 0 <= k < |inst.values| && inst.values[k].1.Atom?
          && t == ScalarTriple(ns, subject, inst.values[k].0, inst.values[k].1.scalar);
        var k' := if k < i then k else k - 1;
        assert t == ScalarTriple(ns, subject, inst'.values[k'].0, inst'.values[k'].1.scalar);
      }
    }
  }
}
