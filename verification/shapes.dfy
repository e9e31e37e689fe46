/**
 * ShapeGenerator: compiles a model class into a SHACL node shape (W3C Shapes Constraint
 * Language): one node shape for the class and one blank-node property shape per field,
 * carrying value type (section 4.1), cardinality (4.2), value range (4.3) and string-based
 * (4.4) constraint components.
 */
module Shapes {
  import opened Options
  import opened Rdf
  import opened Host
  import opened Introspection
  import opened TypeMapping

  /** The node shape's IRI, `ns[name + "Shape"]`. */
  function ShapeIri(ns: string, name: string): string
  {
    ns + name + "Shape"
  }

  /** The fresh blank node `BNode()` draws for the i-th field; `seed` stands for rdflib's generator. */
  function PropertyNode(seed: nat, i: nat): Term
  {
    Blank(Fresh(seed + i))
  }

  /** The SHACL parameter each field bound is compiled to. */
  function BoundPredicate(b: Bound): Term
  {
    match b
    case MinLength => ShMinLength
    case MaxLength => ShMaxLength
    case Pattern => ShPattern
    case Gt => ShMinExclusive
    case Ge => ShMinInclusive
    case Lt => ShMaxExclusive
    case Le => ShMaxInclusive
  }

  /** The node shape's own triples: its type, its target class and the optional comment. */
  function Header(ns: string, info: ModelInfo): (r: Graph)
    ensures forall t :: t in r ==> t.s == Iri(ShapeIri(ns, info.name))
  {
    var shape := Iri(ShapeIri(ns, info.name));
    {Triple(shape, RdfType, ShNodeShape), Triple(shape, ShTargetClass, Iri(ns + info.name))}
    + (if Truthy(info.doc) then {Triple(shape, RdfsComment, Lit(Native(Str(info.doc.value))))} else {})
  }

  /** The bound triples of a property shape: one per constraints key, under that key's parameter. */
  function BoundTriples(node: Term, c: map<Bound, Scalar>): (r: Graph)
    ensures forall t :: t in r ==> t.s == node
  {
    set b | b in c :: Triple(node, BoundPredicate(b), Lit(Native(c[b])))
  }

  /** The optional `sh:description`, present when the field's description is truthy. */
  function DescriptionTriples(node: Term, info: FieldInfo): Graph
  {
    if Truthy(info.description) then {Triple(node, ShDescription, Lit(Native(Str(info.description.value))))} else {}
  }

  /** The optional `sh:datatype`, present when the type mapper yields a datatype. */
  function DatatypeTriples(node: Term, info: FieldInfo): Graph
  {
    var xsd := MapType(info.fieldType);
    if xsd.Some? then {Triple(node, ShDatatype, Iri(XsdIri(xsd.value)))} else {}
  }

  /** The optional `sh:minCount 1`, present when the field is required. */
  function MinCountTriples(node: Term, info: FieldInfo): Graph
  {
    if info.required then {Triple(node, ShMinCount, Lit(Native(Int(1))))} else {}
  }

  /** The triples `_add_property_shape` puts on the property node itself. */
  function PropertyShape(node: Term, ns: string, name: string, info: FieldInfo): Graph
  {
    {Triple(node, ShPath, Iri(ns + name))}
    + DescriptionTriples(node, info)
    + DatatypeTriples(node, info)
    + MinCountTriples(node, info)
    + BoundTriples(node, info.constraints)
  }

  /** `_add_property_shape`: the link from the node shape plus the property node's triples. */
  function FieldShape(shape: Term, node: Term, ns: string, name: string, info: FieldInfo): Graph
  {
    {Triple(shape, ShProperty, node)} + PropertyShape(node, ns, name, info)
  }

  /** `generate_shape`: the node shape, then one property shape per field in declaration order. */
  function GenerateShape(ns: string, cls: ModelClass, seed: nat): (g: Graph)
    requires Introspectable(cls)
    ensures Triple(Iri(ShapeIri(ns, cls.name)), RdfType, ShNodeShape) in g
    ensures Triple(Iri(ShapeIri(ns, cls.name)), ShTargetClass, Iri(ns + cls.name)) in g
    ensures forall i :: 0 <= i < |cls.fields| ==>
      Triple(Iri(ShapeIri(ns, cls.name)), ShProperty, PropertyNode(seed, i)) in g
  {
    var info := IntrospectModel(cls);
    var shape := Iri(ShapeIri(ns, info.name));
    var fields := set i, t | 0 <= i < |info.fields|
                             && t in FieldShape(shape, PropertyNode(seed, i), ns, info.fields[i].0, info.fields[i].1)
                          :: t;
    assert forall i :: 0 <= i < |cls.fields| ==>
      Triple(shape, ShProperty, PropertyNode(seed, i)) in
        FieldShape(shape, PropertyNode(seed, i), ns, info.fields[i].0, info.fields[i].1);
    Header(ns, info) + fields
  }

  // ---------------------------------------------------------------------------------------
  // One property shape

  /** Every triple of a property shape is about its node. */
  lemma PropertyShapeIsAboutNode(node: Term, ns: string, name: string, info: FieldInfo)
    ensures forall t :: t in PropertyShape(node, ns, name, info) ==> t.s == node
  {
  }

  /** The SHACL parameters a property shape can carry are pairwise distinct IRIs. */
  lemma ParametersDistinct()
    ensures forall b, b' :: BoundPredicate(b) == BoundPredicate(b') ==> b == b'
    ensures forall b :: BoundPredicate(b) != ShPath && BoundPredicate(b) != ShDescription
                     && BoundPredicate(b) != ShDatatype && BoundPredicate(b) != ShMinCount
                     && BoundPredicate(b) != ShMaxCount
    ensures ShPath != ShDescription && ShPath != ShDatatype && ShPath != ShMinCount && ShPath != ShMaxCount
    ensures ShDescription != ShDatatype && ShDescription != ShMinCount && ShDescription != ShMaxCount
    ensures ShDatatype != ShMinCount && ShDatatype != ShMaxCount && ShMinCount != ShMaxCount
  {
  }

  /** Bounds compile one-to-one: parameter `BoundPredicate(b)` appears iff `b` is a key, with its value. */
  lemma BoundsOneToOne(node: Term, ns: string, name: string, info: FieldInfo, b: Bound)
    ensures Statements(PropertyShape(node, ns, name, info), node, BoundPredicate(b))
         == if b in info.constraints
            then {Triple(node, BoundPredicate(b), Lit(Native(info.constraints[b])))}
            else {}
  {
    ParametersDistinct();
    var c := info.constraints;
    var p := BoundPredicate(b);
    PropertyShapeStatements(node, ns, name, info, p);
    assert Statements({Triple(node, ShPath, Iri(ns + name))}, node, p) == {};
    assert Statements(DescriptionTriples(node, info), node, p) == {};
    assert Statements(DatatypeTriples(node, info), node, p) == {};
    assert Statements(MinCountTriples(node, info), node, p) == {};
  }

  /** Under any predicate, a property shape's statements are those of its five pieces. */
  lemma PropertyShapeStatements(node: Term, ns: string, name: string, info: FieldInfo, p: Term)
    ensures Statements(PropertyShape(node, ns, name, info), node, p)
         == Statements({Triple(node, ShPath, Iri(ns + name))}, node, p)
            + Statements(DescriptionTriples(node, info), node, p)
            + Statements(DatatypeTriples(node, info), node, p)
            + Statements(MinCountTriples(node, info), node, p)
            + Statements(BoundTriples(node, info.constraints), node, p)
  {
    var a := {Triple(node, ShPath, Iri(ns + name))};
    var b := DescriptionTriples(node, info);
    var c := DatatypeTriples(node, info);
    var d := MinCountTriples(node, info);
    var e := BoundTriples(node, info.constraints);
    StatementsOfUnion(a, b, node, p);
    StatementsOfUnion(a + b, c, node, p);
    StatementsOfUnion(a + b + c, d, node, p);
    StatementsOfUnion(a + b + c + d, e, node, p);
  }

  /** The bound triples say nothing under a predicate no bound compiles to. */
  lemma NoBoundStatements(node: Term, c: map<Bound, Scalar>, p: Term)
    requires forall b :: BoundPredicate(b) != p
    ensures Statements(BoundTriples(node, c), node, p) == {}
  {
  }

  /**
   * A property shape has exactly one `sh:path`, a description iff the field's is truthy,
   * a datatype iff the type mapper yields one, `sh:minCount 1` iff the field is required,
   * and never an `sh:maxCount`.
   */
  lemma PropertyShapeParameters(node: Term, ns: string, name: string, info: FieldInfo)
    ensures Statements(PropertyShape(node, ns, name, info), node, ShPath)
         == {Triple(node, ShPath, Iri(ns + name))}
    ensures Statements(PropertyShape(node, ns, name, info), node, ShDescription)
         == if Truthy(info.description)
            then {Triple(node, ShDescription, Lit(Native(Str(info.description.value))))}
            else {}
    ensures Statements(PropertyShape(node, ns, name, info), node, ShDatatype)
         == if MapType(info.fieldType).Some?
            then {Triple(node, ShDatatype, Iri(XsdIri(MapType(info.fieldType).value)))}
            else {}
    ensures Statements(PropertyShape(node, ns, name, info), node, ShMinCount)
         == if info.required then {Triple(node, ShMinCount, Lit(Native(Int(1))))} else {}
    ensures Statements(PropertyShape(node, ns, name, info), node, ShMaxCount) == {}
  {
    PathParameter(node, ns, name, info);
    DescriptionParameter(node, ns, name, info);
    DatatypeParameter(node, ns, name, info);
    MinCountParameter(node, ns, name, info);
    MaxCountParameter(node, ns, name, info);
  }

  lemma PathParameter(node: Term, ns: string, name: string, info: FieldInfo)
    ensures Statements(PropertyShape(node, ns, name, info), node, ShPath)
         == {Triple(node, ShPath, Iri(ns + name))}
  {
    ParametersDistinct();
    PropertyShapeStatements(node, ns, name, info, ShPath);
    NoBoundStatements(node, info.constraints, ShPath);
    assert Statements(DescriptionTriples(node, info), node, ShPath) == {};
    assert Statements(DatatypeTriples(node, info), node, ShPath) == {};
    assert Statements(MinCountTriples(node, info), node, ShPath) == {};
  }

  lemma DescriptionParameter(node: Term, ns: string, name: string, info: FieldInfo)
    ensures Statements(PropertyShape(node, ns, name, info), node, ShDescription)
         == if Truthy(info.description)
            then {Triple(node, ShDescription, Lit(Native(Str(info.description.value))))}
            else {}
  {
    ParametersDistinct();
    PropertyShapeStatements(node, ns, name, info, ShDescription);
    NoBoundStatements(node, info.constraints, ShDescription);
    assert Statements({Triple(node, ShPath, Iri(ns + name))}, node, ShDescription) == {};
    assert Statements(DatatypeTriples(node, info), node, ShDescription) == {};
    assert Statements(MinCountTriples(node, info), node, ShDescription) == {};
    assert Statements(DescriptionTriples(node, info), node, ShDescription) == DescriptionTriples(node, info);
  }

  lemma DatatypeParameter(node: Term, ns: string, name: string, info: FieldInfo)
    ensures Statements(PropertyShape(node, ns, name, info), node, ShDatatype)
         == if MapType(info.fieldType).Some?
            then {Triple(node, ShDatatype, Iri(XsdIri(MapType(info.fieldType).value)))}
            else {}
  {
    ParametersDistinct();
    PropertyShapeStatements(node, ns, name, info, ShDatatype);
    NoBoundStatements(node, info.constraints, ShDatatype);
    assert Statements({Triple(node, ShPath, Iri(ns + name))}, node, ShDatatype) == {};
    assert Statements(DescriptionTriples(node, info), node, ShDatatype) == {};
    assert Statements(MinCountTriples(node, info), node, ShDatatype) == {};
    assert Statements(DatatypeTriples(node, info), node, ShDatatype) == DatatypeTriples(node, info);
  }

  lemma MinCountParameter(node: Term, ns: string, name: string, info: FieldInfo)
    ensures Statements(PropertyShape(node, ns, name, info), node, ShMinCount)
         == if info.required then {Triple(node, ShMinCount, Lit(Native(Int(1))))} else {}
  {
    ParametersDistinct();
    PropertyShapeStatements(node, ns, name, info, ShMinCount);
    NoBoundStatements(node, info.constraints, ShMinCount);
    assert Statements({Triple(node, ShPath, Iri(ns + name))}, node, ShMinCount) == {};
    assert Statements(DescriptionTriples(node, info), node, ShMinCount) == {};
    assert Statements(DatatypeTriples(node, info), node, ShMinCount) == {};
    assert Statements(MinCountTriples(node, info), node, ShMinCount) == MinCountTriples(node, info);
  }

  lemma MaxCountParameter(node: Term, ns: string, name: string, info: FieldInfo)
    ensures Statements(PropertyShape(node, ns, name, info), node, ShMaxCount) == {}
  {
    ParametersDistinct();
    PropertyShapeStatements(node, ns, name, info, ShMaxCount);
    NoBoundStatements(node, info.constraints, ShMaxCount);
    assert Statements({Triple(node, ShPath, Iri(ns + name))}, node, ShMaxCount) == {};
    assert Statements(DescriptionTriples(node, info), node, ShMaxCount) == {};
    assert Statements(DatatypeTriples(node, info), node, ShMaxCount) == {};
    assert Statements(MinCountTriples(node, info), node, ShMaxCount) == {};
  }

  // ---------------------------------------------------------------------------------------
  // The whole shape graph

  /** The triples the i-th field contributes, as `generate_shape` passes it to `_add_property_shape`. */
  function FieldContribution(ns: string, cls: ModelClass, seed: nat, i: nat): (r: Graph)
    requires Introspectable(cls)
    requires i < |cls.fields|
    ensures Triple(Iri(ShapeIri(ns, cls.name)), ShProperty, PropertyNode(seed, i)) in r
    ensures forall t :: t in r ==>
      t == Triple(Iri(ShapeIri(ns, cls.name)), ShProperty, PropertyNode(seed, i)) || t.s == PropertyNode(seed, i)
    ensures forall t :: t in r && t.s == PropertyNode(seed, i) <==>
      t in PropertyShape(PropertyNode(seed, i), ns, cls.fields[i].name, ExtractFieldInfo(cls.fields[i]))
  {
    PropertyShapeIsAboutNode(PropertyNode(seed, i), ns, cls.fields[i].name, ExtractFieldInfo(cls.fields[i]));
    FieldShape(Iri(ShapeIri(ns, cls.name)), PropertyNode(seed, i), ns, cls.fields[i].name,
               ExtractFieldInfo(cls.fields[i]))
  }

  /** A shape graph is its header plus the contributions of its fields, and nothing else. */
  lemma ShapeGraphParts(ns: string, cls: ModelClass, seed: nat)
    requires Introspectable(cls)
    ensures forall t :: t in GenerateShape(ns, cls, seed) <==>
      t in Header(ns, IntrospectModel(cls))
      || exists i :: 0 <= i < |cls.fields| && t in FieldContribution(ns, cls, seed, i)
  {
    var info := IntrospectModel(cls);
    forall i | 0 <= i < |cls.fields|
      ensures FieldContribution(ns, cls, seed, i)
           == FieldShape(Iri(ShapeIri(ns, info.name)), PropertyNode(seed, i), ns, info.fields[i].0, info.fields[i].1)
    {
    }
  }

  /** Which part of the shape graph a triple comes from: the header, or the `i`-th field. */
  lemma ShapeTripleOrigin(ns: string, cls: ModelClass, seed: nat, t: Triple) returns (i: nat)
    requires Introspectable(cls)
    ensures t in GenerateShape(ns, cls, seed) && t !in Header(ns, IntrospectModel(cls)) ==>
      i < |cls.fields| && t in FieldContribution(ns, cls, seed, i)
  {
    i := 0;
    if t in GenerateShape(ns, cls, seed) && t !in Header(ns, IntrospectModel(cls)) {
      var info := IntrospectModel(cls);
      var j :| 0 <= j < |info.fields|
               && t in FieldShape(Iri(ShapeIri(ns, info.name)), PropertyNode(seed, j), ns, info.fields[j].0, info.fields[j].1);
      assert t in FieldContribution(ns, cls, seed, j);
      i := j;
    }
  }

  /** Each field's contribution is part of the shape graph. */
  lemma ContributionInShape(ns: string, cls: ModelClass, seed: nat, i: nat)
    requires Introspectable(cls)
    requires i < |cls.fields|
    ensures FieldContribution(ns, cls, seed, i) <= GenerateShape(ns, cls, seed)
  {
    var info := IntrospectModel(cls);
    assert FieldContribution(ns, cls, seed, i)
        == FieldShape(Iri(ShapeIri(ns, info.name)), PropertyNode(seed, i), ns, info.fields[i].0, info.fields[i].1);
  }

  /**
   * The node shape's own triples are exactly its header and one `sh:property` link per field:
   * every other triple of the graph is about a property node.
   */
  lemma ShapeSubjectTriples(ns: string, cls: ModelClass, seed: nat)
    requires Introspectable(cls)
    ensures About(GenerateShape(ns, cls, seed), Iri(ShapeIri(ns, cls.name)))
         == Header(ns, IntrospectModel(cls))
            + set i | 0 <= i < |cls.fields| :: Triple(Iri(ShapeIri(ns, cls.name)), ShProperty, PropertyNode(seed, i))
  {
    var g := GenerateShape(ns, cls, seed);
    var shape := Iri(ShapeIri(ns, cls.name));
    var links := set i | 0 <= i < |cls.fields| :: Triple(shape, ShProperty, PropertyNode(seed, i));
    forall t | t in About(g, shape) ensures t in Header(ns, IntrospectModel(cls)) + links {
      var i := ShapeTripleOrigin(ns, cls, seed, t);
      if t !in Header(ns, IntrospectModel(cls)) {
        assert t == Triple(shape, ShProperty, PropertyNode(seed, i));
      }
    }
    forall t | t in links ensures t in About(g, shape) {
      var i :| 0 <= i < |cls.fields| && t == Triple(shape, ShProperty, PropertyNode(seed, i));
      ContributionInShape(ns, cls, seed, i);
    }
  }

  /** The links from the node shape to the fields' property nodes. */
  function PropertyLinks(ns: string, cls: ModelClass, seed: nat): Graph
  {
    set i | 0 <= i < |cls.fields| :: Triple(Iri(ShapeIri(ns, cls.name)), ShProperty, PropertyNode(seed, i))
  }

  /** Under any predicate, the node shape's statements are the header's plus the links'. */
  lemma ShapeStatements(ns: string, cls: ModelClass, seed: nat, p: Term)
    requires Introspectable(cls)
    ensures Statements(GenerateShape(ns, cls, seed), Iri(ShapeIri(ns, cls.name)), p)
         == Statements(Header(ns, IntrospectModel(cls)), Iri(ShapeIri(ns, cls.name)), p)
            + Statements(PropertyLinks(ns, cls, seed), Iri(ShapeIri(ns, cls.name)), p)
  {
    var shape := Iri(ShapeIri(ns, cls.name));
    ShapeSubjectTriples(ns, cls, seed);
    StatementsOfAbout(GenerateShape(ns, cls, seed), shape, p);
    StatementsOfUnion(Header(ns, IntrospectModel(cls)), PropertyLinks(ns, cls, seed), shape, p);
  }

  /**
   * The shape has exactly one `rdf:type sh:NodeShape` triple, exactly one `sh:targetClass`
   * triple naming `ns[name]`, and an `rdfs:comment` iff the docstring is truthy.
   */
  lemma NodeShapeHeader(ns: string, cls: ModelClass, seed: nat)
    requires Introspectable(cls)
    ensures Statements(GenerateShape(ns, cls, seed), Iri(ShapeIri(ns, cls.name)), RdfType)
         == {Triple(Iri(ShapeIri(ns, cls.name)), RdfType, ShNodeShape)}
    ensures Statements(GenerateShape(ns, cls, seed), Iri(ShapeIri(ns, cls.name)), ShTargetClass)
         == {Triple(Iri(ShapeIri(ns, cls.name)), ShTargetClass, Iri(ns + cls.name))}
    ensures Statements(GenerateShape(ns, cls, seed), Iri(ShapeIri(ns, cls.name)), RdfsComment)
         == if Truthy(cls.doc) then {Triple(Iri(ShapeIri(ns, cls.name)), RdfsComment, Lit(Native(Str(cls.doc.value))))}
            else {}
  {
    var shape := Iri(ShapeIri(ns, cls.name));
    var header := Header(ns, IntrospectModel(cls));
    var links := PropertyLinks(ns, cls, seed);
    ShapeStatements(ns, cls, seed, RdfType);
    ShapeStatements(ns, cls, seed, ShTargetClass);
    ShapeStatements(ns, cls, seed, RdfsComment);
    assert Statements(links, shape, RdfType) == {};
    assert Statements(links, shape, ShTargetClass) == {};
    assert Statements(links, shape, RdfsComment) == {};
  }

  /** The node shape's `sh:property` objects are exactly the fields' own fresh nodes, one per field. */
  lemma NodeShapeLinks(ns: string, cls: ModelClass, seed: nat)
    requires Introspectable(cls)
    ensures Statements(GenerateShape(ns, cls, seed), Iri(ShapeIri(ns, cls.name)), ShProperty)
         == set i | 0 <= i < |cls.fields| :: Triple(Iri(ShapeIri(ns, cls.name)), ShProperty, PropertyNode(seed, i))
  {
    var shape := Iri(ShapeIri(ns, cls.name));
    ShapeStatements(ns, cls, seed, ShProperty);
    assert Statements(Header(ns, IntrospectModel(cls)), shape, ShProperty) == {};
    assert Statements(PropertyLinks(ns, cls, seed), shape, ShProperty) == PropertyLinks(ns, cls, seed);
  }

  /** The triples about the i-th property node are exactly that field's property shape. */
  lemma FieldNodeTriples(ns: string, cls: ModelClass, seed: nat, i: nat)
    requires Introspectable(cls)
    requires i < |cls.fields|
    ensures About(GenerateShape(ns, cls, seed), PropertyNode(seed, i))
         == PropertyShape(PropertyNode(seed, i), ns, cls.fields[i].name, ExtractFieldInfo(cls.fields[i]))
  {
    var g := GenerateShape(ns, cls, seed);
    var node := PropertyNode(seed, i);
    var mine := PropertyShape(node, ns, cls.fields[i].name, ExtractFieldInfo(cls.fields[i]));
    forall t | t in About(g, node) ensures t in mine {
      var j := ShapeTripleOrigin(ns, cls, seed, t);
      assert t !in Header(ns, IntrospectModel(cls));
      assert t.s.Blank?;
      assert t.s == PropertyNode(seed, j);
      assert j == i;
    }
    ContributionInShape(ns, cls, seed, i);
  }

  lemma StatementsOfAbout(g: Graph, s: Term, p: Term)
    ensures Statements(g, s, p) == Statements(About(g, s), s, p)
  {
  }

  /**
   * For the i-th field, parameter `BoundPredicate(b)` is in the shape graph iff the field
   * declares bound `b`, and then with exactly the declared value (min_length to sh:minLength,
   * max_length to sh:maxLength, a compiled regex's pattern to sh:pattern, gt/ge/lt/le to sh:minExclusive,
   * sh:minInclusive, sh:maxExclusive, sh:maxInclusive).
   */
  lemma FieldBoundsCompiled(ns: string, cls: ModelClass, seed: nat, i: nat, b: Bound)
    requires Introspectable(cls)
    requires i < |cls.fields|
    ensures Statements(GenerateShape(ns, cls, seed), PropertyNode(seed, i), BoundPredicate(b))
         == if Declared(cls.fields[i], b).Some?
            then {Triple(PropertyNode(seed, i), BoundPredicate(b), Lit(Native(Declared(cls.fields[i], b).value)))}
            else {}
  {
    var node := PropertyNode(seed, i);
    FieldNodeTriples(ns, cls, seed, i);
    StatementsOfAbout(GenerateShape(ns, cls, seed), node, BoundPredicate(b));
    BoundsOneToOne(node, ns, cls.fields[i].name, ExtractFieldInfo(cls.fields[i]), b);
  }

  /**
   * The i-th field's node has exactly one `sh:path ns[name]`, a description iff the field's
   * is truthy, an `sh:datatype` iff `map_type` yields one, and `sh:minCount 1` iff the field
   * is required.
   */
  lemma FieldParametersCompiled(ns: string, cls: ModelClass, seed: nat, i: nat)
    requires Introspectable(cls)
    requires i < |cls.fields|
    ensures Statements(GenerateShape(ns, cls, seed), PropertyNode(seed, i), ShPath)
         == {Triple(PropertyNode(seed, i), ShPath, Iri(ns + cls.fields[i].name))}
    ensures Statements(GenerateShape(ns, cls, seed), PropertyNode(seed, i), ShDescription)
         == if Truthy(cls.fields[i].description)
            then {Triple(PropertyNode(seed, i), ShDescription, Lit(Native(Str(cls.fields[i].description.value))))}
            else {}
    ensures Statements(GenerateShape(ns, cls, seed), PropertyNode(seed, i), ShDatatype)
         == if MapType(cls.fields[i].outerType).Some?
            then {Triple(PropertyNode(seed, i), ShDatatype, Iri(XsdIri(MapType(cls.fields[i].outerType).value)))}
            else {}
    ensures Statements(GenerateShape(ns, cls, seed), PropertyNode(seed, i), ShMinCount)
         == if cls.fields[i].required then {Triple(PropertyNode(seed, i), ShMinCount, Lit(Native(Int(1))))} else {}
  {
    var g := GenerateShape(ns, cls, seed);
    var node := PropertyNode(seed, i);
    FieldNodeTriples(ns, cls, seed, i);
    PropertyShapeParameters(node, ns, cls.fields[i].name, ExtractFieldInfo(cls.fields[i]));
    StatementsOfAbout(g, node, ShPath);
    StatementsOfAbout(g, node, ShDescription);
    StatementsOfAbout(g, node, ShDatatype);
    StatementsOfAbout(g, node, ShMinCount);
  }

  /** No `sh:maxCount` triple is ever generated: list and scalar fields alike are unbounded above. */
  lemma NoMaxCount(ns: string, cls: ModelClass, seed: nat)
    requires Introspectable(cls)
    ensures forall t :: t in GenerateShape(ns, cls, seed) ==> t.p != ShMaxCount
  {
    forall t | t in GenerateShape(ns, cls, seed) ensures t.p != ShMaxCount {
      var i := ShapeTripleOrigin(ns, cls, seed, t);
      if t in Header(ns, IntrospectModel(cls)) {
        assert t.p == RdfType || t.p == ShTargetClass || t.p == RdfsComment;
      } else {
        var node := PropertyNode(seed, i);
        if t.s == node {
          var shape := PropertyShape(node, ns, cls.fields[i].name, ExtractFieldInfo(cls.fields[i]));
          PropertyShapeParameters(node, ns, cls.fields[i].name, ExtractFieldInfo(cls.fields[i]));
          assert t in shape;
          assert t !in Statements(shape, node, ShMaxCount);
        } else {
          assert t.p == ShProperty;
        }
      }
    }
  }
}
