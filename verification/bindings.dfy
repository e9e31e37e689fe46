/**
 * `QueryExecutor._convert_binding_value`: decoding one RDF term of a SELECT result, written
 * as a JSON object per section 3.2.2 of SPARQL 1.1 Query Results JSON Format (keys "type",
 * "value", "datatype", "xml:lang"), into an rdflib term.
 */
module Bindings {
  import opened Options
  import opened Rdf

  /** One JSON RDF-term object: a string-to-string dictionary. */
  type TermObject = map<string, string>

  /** One solution of a SELECT result: a variable name to its term object. */
  type Row = map<string, TermObject>

  /** What decoding yields: an rdflib term, or the raw "value" entry (Python `None` if missing). */
  datatype Decoded = Node(term: Term) | Raw(value: Option<string>)

  /** `dict.get`. */
  function Get(o: TermObject, key: string): (r: Option<string>)
    ensures r.Some? <==> key in o
    ensures r.Some? ==> r.value == o[key]
  {
    if key in o then Some(o[key]) else None
  }

  /** The kinds of term the decoder builds an rdflib term for. */
  predicate IsTermKind(o: TermObject)
  {
    Get(o, "type") == Some("uri") || Get(o, "type") == Some("literal") || Get(o, "type") == Some("bnode")
  }

  /** The results format gives every RDF term a "value"; the decoder relies on it for terms. */
  predicate WellFormed(o: TermObject)
  {
    IsTermKind(o) ==> "value" in o
  }

  function Decode(o: TermObject): Decoded
    requires WellFormed(o)
  {
    var kind := Get(o, "type");
    if kind == Some("uri") then Node(Iri(o["value"]))
    else if kind == Some("literal") then
      var datatype' := Get(o, "datatype");
      var lang := Get(o, "xml:lang");
      if Truthy(datatype') then Node(Lit(Typed(o["value"], datatype'.value)))
      else if Truthy(lang) then Node(Lit(Tagged(o["value"], lang.value)))
      else Node(Lit(Native(Str(o["value"]))))
    else if kind == Some("bnode") then Node(Blank(Labelled(o["value"])))
    else Raw(Get(o, "value"))
  }

  /** The terms a store can send back: IRIs, labelled blank nodes, and literals whose tag is non-empty. */
  predicate Encodable(t: Term)
  {
    match t
    case Iri(_) => true
    case Blank(id) => id.Labelled?
    case Lit(Native(v)) => v.Str?
    case Lit(Typed(_, dt)) => dt != ""
    case Lit(Tagged(_, lang)) => lang != ""
  }

  /** The JSON object section 3.2.2 of the results format prescribes for a term. */
  function Encode(t: Term): TermObject
    requires Encodable(t)
  {
    match t
    case Iri(u) => map["type" := "uri", "value" := u]
    case Blank(id) => map["type" := "bnode", "value" := id.tag]
    case Lit(Native(v)) => map["type" := "literal", "value" := v.s]
    case Lit(Typed(lex, dt)) => map["type" := "literal", "value" := lex, "datatype" := dt]
    case Lit(Tagged(lex, lang)) => map["type" := "literal", "value" := lex, "xml:lang" := lang]
  }

  /** Decoding inverts the results format's encoding of every term a store can return. */
  lemma DecodeEncode(t: Term)
    requires Encodable(t)
    ensures WellFormed(Encode(t))
    ensures Decode(Encode(t)) == Node(t)
  {
    var o := Encode(t);
    match t
    case Iri(u) =>
      assert Get(o, "type") == Some("uri");
    case Blank(id) =>
      assert Get(o, "type") == Some("bnode");
    case Lit(Native(v)) =>
      assert Get(o, "type") == Some("literal");
      assert Get(o, "datatype") == None && Get(o, "xml:lang") == None;
    case Lit(Typed(lex, dt)) =>
      assert Get(o, "type") == Some("literal");
      assert Get(o, "datatype") == Some(dt);
    case Lit(Tagged(lex, lang)) =>
      assert Get(o, "type") == Some("literal");
      assert Get(o, "datatype") == None && Get(o, "xml:lang") == Some(lang);
  }

  /** A literal carrying a (non-empty) datatype decodes as a typed literal whatever its language tag. */
  lemma DatatypeWinsOverLang(o: TermObject, lang: string)
    requires Get(o, "type") == Some("literal") && "value" in o
    requires Truthy(Get(o, "datatype"))
    ensures Decode(o) == Node(Lit(Typed(o["value"], o["datatype"])))
    ensures Decode(o["xml:lang" := lang]) == Decode(o)
  {
    var o' := o["xml:lang" := lang];
    assert Get(o', "type") == Some("literal") && Get(o', "datatype") == Get(o, "datatype");
  }

  /**
   * "uri", "literal" and "bnode" give an rdflib term of that kind; any other or missing "type"
   * gives back the raw "value" entry.
   */
  lemma DecodedKinds(o: TermObject)
    requires WellFormed(o)
    ensures Get(o, "type") == Some("uri") <==> Decode(o).Node? && Decode(o).term.Iri?
    ensures Get(o, "type") == Some("bnode") <==> Decode(o).Node? && Decode(o).term.Blank?
    ensures Get(o, "type") == Some("literal") <==> Decode(o).Node? && Decode(o).term.Lit?
    ensures !IsTermKind(o) <==> Decode(o) == Raw(Get(o, "value"))
    ensures Get(o, "type") == Some("literal") && !Truthy(Get(o, "datatype")) ==>
      (Truthy(Get(o, "xml:lang")) <==> Decode(o).term.lit.Tagged?)
  {
  }
}
