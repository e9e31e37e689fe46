/** RDF terms and graphs as rdflib represents them, with the vocabulary the core uses. */
module Rdf {

  /** A Python scalar that rdflib turns into a literal: str, int, float, bool. Floats are opaque. */
  datatype Scalar = Str(s: string) | Int(i: int) | Float(repr: string) | Bool(b: bool)

  /** `Literal(v)` built from a Python value, or a literal decoded from a query result. */
  datatype Literal =
    | Native(value: Scalar)
    | Typed(lexical: string, dtype: string)
    | Tagged(lexical: string, lang: string)

  /** `BNode()` draws a fresh identifier; `BNode(tag)` reuses a tag from the store. */
  datatype BlankId = Fresh(n: nat) | Labelled(tag: string)

  datatype Term = Iri(iri: string) | Blank(id: BlankId) | Lit(lit: Literal)

  datatype Triple = Triple(s: Term, p: Term, o: Term)

  /** An rdflib `Graph` is a set of triples; `graph += other` is union. */
  type Graph = set<Triple>

  /** The triples of `g` whose subject is `s`. */
  function About(g: Graph, s: Term): (r: Graph)
    ensures r <= g
    ensures forall t :: t in r <==> t in g && t.s == s
  {
    set t | t in g && t.s == s
  }

  /** The triples of `g` with subject `s` and predicate `p`. */
  function Statements(g: Graph, s: Term, p: Term): (r: Graph)
    ensures forall t :: t in r <==> t in g && t.s == s && t.p == p
  {
    set t | t in g && t.s == s && t.p == p
  }

  lemma StatementsOfUnion(a: Graph, b: Graph, s: Term, p: Term)
    ensures Statements(a + b, s, p) == Statements(a, s, p) + Statements(b, s, p)
  {
  }

  const RdfTypeIri: string := "http://www.w3.org/1999/02/22-rdf-syntax-ns#type"
  const RdfType: Term := Iri(RdfTypeIri)
  const RdfsComment: Term := Iri("http://www.w3.org/2000/01/rdf-schema#comment")

  const XsdStringIri: string := "http://www.w3.org/2001/XMLSchema#string"
  const XsdIntegerIri: string := "http://www.w3.org/2001/XMLSchema#integer"
  const XsdDecimalIri: string := "http://www.w3.org/2001/XMLSchema#decimal"
  const XsdBooleanIri: string := "http://www.w3.org/2001/XMLSchema#boolean"

  // SHACL core vocabulary (W3C Shapes Constraint Language, sections 2 and 4.1-4.4)
  const ShNodeShape: Term := Iri("http://www.w3.org/ns/shacl#NodeShape")
  const ShTargetClass: Term := Iri("http://www.w3.org/ns/shacl#targetClass")
  const ShProperty: Term := Iri("http://www.w3.org/ns/shacl#property")
  const ShPath: Term := Iri("http://www.w3.org/ns/shacl#path")
  const ShDescription: Term := Iri("http://www.w3.org/ns/shacl#description")
  const ShDatatype: Term := Iri("http://www.w3.org/ns/shacl#datatype")
  const ShMinCount: Term := Iri("http://www.w3.org/ns/shacl#minCount")
  const ShMaxCount: Term := Iri("http://www.w3.org/ns/shacl#maxCount")
  const ShMinLength: Term := Iri("http://www.w3.org/ns/shacl#minLength")
  const ShMaxLength: Term := Iri("http://www.w3.org/ns/shacl#maxLength")
  const ShPattern: Term := Iri("http://www.w3.org/ns/shacl#pattern")
  const ShMinExclusive: Term := Iri("http://www.w3.org/ns/shacl#minExclusive")
  const ShMinInclusive: Term := Iri("http://www.w3.org/ns/shacl#minInclusive")
  const ShMaxExclusive: Term := Iri("http://www.w3.org/ns/shacl#maxExclusive")
  const ShMaxInclusive: Term := Iri("http://www.w3.org/ns/shacl#maxInclusive")
}
