# LangGraphSemantic core, modelled in Dafny

LangGraphSemantic turns Pydantic model classes into SHACL shapes and stores them, together
with instance data, in an Apache Jena Fuseki dataset over SPARQL. This project models its core
as pure functions over immutable data and proves what each step promises:

- `Host` holds the Python objects the core reads, already decoded: a field's declared type
  (`PyType`), a Pydantic field record (`FieldSource`), a model class (`ModelClass`), and a model
  instance (`Instance`) with its `.dict()` values.
- `Introspection` models `ModelIntrospector`: the field metadata and the constraint dictionary.
- `TypeMapping` models `TypeMapper.map_type`. Optional and List types are peeled. The four
  primitive types map to their XSD datatypes. A model class maps to no datatype. Everything
  else defaults to `xsd:string`.
- `Shapes` models `ShapeGenerator`: one `sh:NodeShape` per class, and one property shape per
  field on a fresh blank node.
- `Instances` models `LangGraphSemantic._instance_to_rdf`, which folds an instance (nested
  instances included) into triples. It also models the flattened graph that
  `SemanticModelRegistry.validate_instance` builds.
- `Sparql` models the SPARQL text the store sends: INSERT DATA (section 3.1.1 of SPARQL 1.1
  Update), DROP GRAPH (section 3.2.2 of SPARQL 1.1 Update), and the CONSTRUCT query that reads
  one named graph.
- `Bindings` models how a SELECT result term is decoded. The term arrives as a JSON object laid
  out as section 3.2.2 of SPARQL 1.1 Query Results JSON Format prescribes.
- `Store` models `StoreConnection`, `QueryExecutor`, `UpdateExecutor` and `FusekiStore`.
- `Registry` models `SemanticModelRegistry`.
- `Semantic` models the `LangGraphSemantic` entry point.

An RDF graph is a set of triples, and rdflib's `graph += other` is set union. The SPARQL
endpoint is an `Oracle`: total functions from (endpoint URL, request text) to a reply or a
raised error. Turtle serialization is an opaque function of the graph. Every store operation
returns its result together with the list of requests it sent. That makes "sends nothing",
"sends only the shape" and "writes the shape again" statable.

Blank nodes created by the shape generator are `Fresh(seed + i)`, where `i` is the field's
position; `seed` stands for rdflib's fresh-node supply. `id(instance)` is the instance's `oid`.
A field's `regex` is either kept as text, which is what Pydantic v1's `Field(regex=...)` stores,
or a compiled pattern. Reading `.pattern` from text raises. So the introspector and the shape
generator return only for classes with no text regex (`Introspection.Introspectable`), and the
`Introspection` and `Shapes` members are stated for those classes. `Registry.RegisterModel`
models the raising case.

Python truthiness of an optional string is modelled explicitly (`Options.Truthy`: present and
non-empty).

## Model

| member | source | states |
|---|---|---|
| Introspection.ConstraintsAreDeclaredBounds | src/langgraphsemantic/core.py:76-96 | A bound is a key of the constraint dictionary iff the field declares it (not None), and its value is the declared one (the compiled pattern's text for `pattern`). Stated for fields whose regex is not kept as text, the only fields for which reading `field_info.regex.pattern` returns. |
| Introspection.FillHoldsDeclared | src/langgraphsemantic/core.py:76-96 | After testing a sequence of bounds in order, a bound is a key iff it was tested and the field declares it, and it holds the declared value. |
| Introspection.ExtractFieldInfo | src/langgraphsemantic/core.py:73-104 | The field info keeps the outer type, requiredness and description. Its default is None for a required field and the declared default otherwise. Its constraints are exactly the declared bounds with their values. |
| Introspection.IntrospectModel | src/langgraphsemantic/core.py:46-61 | The model info carries the class name and docstring and one entry per field, in field order, holding that field's extracted info. |
| TypeMapping.PrimitivesMap | src/langgraphsemantic/core.py:141-147 | str, int, float and bool map to xsd:string, xsd:integer, xsd:decimal and xsd:boolean, with those exact XSD IRIs. |
| TypeMapping.OptionalMapsFirstArgument | src/langgraphsemantic/core.py:167-171 | A Union containing None maps as its first argument that is not None. |
| TypeMapping.UnpeeledContainersAreStrings | src/langgraphsemantic/core.py:164-185 | A Union without None, and a List whose argument count is not one, fall through to xsd:string. A one-argument List maps as its item type. |
| TypeMapping.MapTypeIsClassifyOfPeel | src/langgraphsemantic/core.py:159-185 | For every type, the mapping equals an independent two-step definition: first peel Optional and List wrappers, then look the result up in a fixed table. |
| TypeMapping.NoDatatypeIffModel | src/langgraphsemantic/core.py:179-185 | No datatype is produced iff the peeled type is a Pydantic model class. Any other type that is not one of the four primitives gets xsd:string. |
| TypeMapping.FirstNotNone | src/langgraphsemantic/core.py:169-171 | The index the Optional loop stops at: every argument before it is `type(None)`, and the argument at it is not. |
| Shapes.GenerateShape | src/langgraphsemantic/core.py:229-238 | The shape graph types the shape IRI `ns[name + "Shape"]` as `sh:NodeShape`, targets the class `ns[name]`, and links one property node per field. |
| Shapes.ShapeGraphParts | src/langgraphsemantic/core.py:236-238 | A triple is in the shape graph iff it belongs to the header or to some field's contribution. |
| Shapes.FieldContribution | src/langgraphsemantic/core.py:253-297 | A field's contribution holds its `sh:property` link. Every other triple in it is about the field's own blank node, and the triples about that node are exactly its property shape. |
| Shapes.ShapeSubjectTriples | src/langgraphsemantic/core.py:229-255 | The triples about the shape IRI are exactly the header triples plus one `sh:property` link per field. |
| Shapes.NodeShapeHeader | src/langgraphsemantic/core.py:229-234 | The shape IRI has exactly one `rdf:type` triple (`sh:NodeShape`) and exactly one `sh:targetClass` triple (`ns[name]`), and has an `rdfs:comment` iff the docstring is truthy. |
| Shapes.NodeShapeLinks | src/langgraphsemantic/core.py:236-255 | The shape IRI's `sh:property` objects are exactly the fields' own fresh nodes, one per field. |
| Shapes.ShapeTripleOrigin | src/langgraphsemantic/core.py:229-255 | Every triple of the shape graph comes from the node-shape header or from one field's property shape. |
| Shapes.ContributionInShape | src/langgraphsemantic/core.py:236-238 | Each field's property shape, link included, ends up in the shape graph. |
| Shapes.PropertyShapeIsAboutNode | src/langgraphsemantic/core.py:254-297 | Every triple of a property shape has the property node as subject. |
| Shapes.ParametersDistinct | src/langgraphsemantic/core.py:258-297 | The SHACL predicates a property shape uses are pairwise distinct IRIs, and the seven bound kinds use seven different predicates. |
| Shapes.PropertyShapeParameters | src/langgraphsemantic/core.py:257-273 | A property shape has exactly one `sh:path`, namely `ns[field]`. It has one `sh:description` iff the description is truthy, one `sh:datatype` iff the type maps to a datatype, one `sh:minCount 1` iff the field is required, and never an `sh:maxCount`. |
| Shapes.PathParameter | src/langgraphsemantic/core.py:257-258 | A property shape has exactly one `sh:path` triple, naming `ns[field]`. |
| Shapes.DescriptionParameter | src/langgraphsemantic/core.py:260-262 | A property shape has an `sh:description` iff the description is truthy, carrying that text. |
| Shapes.DatatypeParameter | src/langgraphsemantic/core.py:264-269 | A property shape has an `sh:datatype` iff the type mapper yields one, naming that XSD IRI. |
| Shapes.MinCountParameter | src/langgraphsemantic/core.py:271-273 | A property shape has `sh:minCount 1` iff the field is required. |
| Shapes.MaxCountParameter | src/langgraphsemantic/core.py:271-273 | A property shape never has an `sh:maxCount`. |
| Shapes.BoundsOneToOne | src/langgraphsemantic/core.py:276-297 | For each bound, the property shape has one triple under its SHACL predicate iff the constraint is present, carrying the constraint's value; gt, ge, lt and le map to minExclusive, minInclusive, maxExclusive and maxInclusive. |
| Shapes.FieldNodeTriples | src/langgraphsemantic/core.py:253-297 | In the whole shape graph, the triples about field i's node are exactly field i's property shape: fields never share or leak into each other's nodes. |
| Shapes.FieldBoundsCompiled | src/langgraphsemantic/core.py:276-297 | End to end from the Pydantic field: the shape has a bound triple for field i iff the field declares that bound, with the declared value. |
| Shapes.FieldParametersCompiled | src/langgraphsemantic/core.py:257-273 | End to end from the Pydantic field: path, description, datatype and minCount of field i follow its name, description, declared type and requiredness. |
| Shapes.NoMaxCount | src/langgraphsemantic/core.py:271-273 | No triple anywhere in a generated shape uses `sh:maxCount`; only minCount cardinality is emitted. |
| Instances.DecimalRoundTrip | src/langgraphsemantic/main.py:128 | `str(id)` is a non-empty string of digits that reads back as the id. |
| Instances.DecimalInjective | src/langgraphsemantic/main.py:128 | Distinct ids are written as distinct digit strings. |
| Instances.InstanceUriInjective | src/langgraphsemantic/main.py:128 | Under one namespace, two instance URIs are equal iff the model names and the ids are equal. |
| Instances.InstanceSubjects | src/langgraphsemantic/main.py:124-164 | Every triple of an instance graph is about the instance itself or about one of the instances nested in it, at any depth. |
| Instances.FieldTriplesShape | src/langgraphsemantic/main.py:135-162 | A field contributes triples about the instance under the field's predicate `ns + field`, plus triples about the instances nested in its value. |
| Instances.ItemTriplesShape | src/langgraphsemantic/main.py:141-153 | A list item contributes triples about the instance under the field's predicate, plus triples about the model it holds, if any. |
| Instances.OwnTriples | src/langgraphsemantic/main.py:128-162 | Provided no nested instance has the same URI, a triple about the instance is its type triple or uses one of its fields' predicates. |
| Instances.TypeTripleUnique | src/langgraphsemantic/main.py:128-132 | The instance URI has exactly one `rdf:type` triple, naming `ns + model_name`. This needs two things: no nested instance has the same URI, and the namespace is not a prefix of the `rdf:type` IRI. |
| Instances.TypeTripleUniqueForDistinctIds | src/langgraphsemantic/main.py:128-132 | The same guarantee, stated in the source's terms: no nested instance has both the root's model name and the root's id. |
| Instances.ScalarFieldTriple | src/langgraphsemantic/main.py:136-139 | A str, int, float or bool field yields `(instance, ns + field, Literal(value))`. |
| Instances.ListScalarTriple | src/langgraphsemantic/main.py:140-144 | Each scalar item of a list field yields a literal triple under the field's predicate. |
| Instances.NestedFieldTriples | src/langgraphsemantic/main.py:154-162 | A nested-model field brings in the nested instance's whole graph plus a link triple. The link's object is the subject of the nested instance's own type triple. |
| Instances.NestedItemTriples | src/langgraphsemantic/main.py:145-153 | A model inside a list field brings in its whole graph and a link to its URI, in the same way. |
| Instances.InertFieldContributesNothing | src/langgraphsemantic/main.py:135-140 | Removing a None field, a field of an unhandled kind, or a list holding only unhandled items leaves the instance graph unchanged. |
| Instances.InertItemContributesNothing | src/langgraphsemantic/main.py:141-145 | Removing a list item that is neither a scalar nor a model leaves the field's triples unchanged. |
| Instances.ValidationGraphWithin | src/langgraphsemantic/integration.py:276-288 | The graph built for validation is a subgraph of the full instance graph. |
| Instances.ValidationGraphOfFlatInstance | src/langgraphsemantic/integration.py:284-288 | When no field is a list or a nested model, the validation graph equals the full instance graph. |
| Instances.ValidationGraphSkipsStructured | src/langgraphsemantic/integration.py:284-288 | Removing any non-scalar field (None, list, nested model or other) leaves the validation graph unchanged. |
| Sparql.ParseTargetedInsert | src/langgraphsemantic/store.py:207-208 | The text `insert_graph` builds for a named graph reads back as INSERT DATA into that graph, with the Turtle body unchanged. |
| Sparql.ParseUntargetedInsert | src/langgraphsemantic/store.py:209-210 | The text for the default graph reads back as INSERT DATA with no target, with the body unchanged. |
| Sparql.ParseRender | src/langgraphsemantic/store.py:207-224 | Every readable update operation (a graph IRI without `>`, a body not starting like a GRAPH block) reads back as itself after rendering. |
| Sparql.ConstructQueryNamesGraph | src/langgraphsemantic/store.py:285-294 | The CONSTRUCT query determines the graph URI it reads: equal queries name equal graphs. |
| Bindings.Get | src/langgraphsemantic/store.py:139-140 | `dict.get`: present iff the key is in the object, with its value. |
| Bindings.DecodeEncode | src/langgraphsemantic/store.py:139-154 | Decoding inverts the results-format encoding for every term a store can return: IRIs, labelled blank nodes, plain, typed and language-tagged literals. |
| Bindings.DatatypeWinsOverLang | src/langgraphsemantic/store.py:144-150 | A literal with a truthy datatype decodes as a typed literal whatever its language tag. |
| Bindings.DecodedKinds | src/langgraphsemantic/store.py:139-156 | "uri", "literal" and "bnode" yield a term of that kind, each iff. Any other or missing type yields the raw `value` entry. A literal without a datatype is language-tagged iff its `xml:lang` is truthy. |
| Store.NewConnection | src/langgraphsemantic/store.py:30-31 | The update endpoint is the given one when truthy, and the query endpoint otherwise. |
| Store.ExecuteSelect | src/langgraphsemantic/store.py:87-98 | One query request is sent. A raised error propagates. Otherwise there is one converted row per solution, in order, with the same variables, each bound to its decoded term. |
| Store.ExecuteUpdate | src/langgraphsemantic/store.py:186-192 | One update request goes to the update endpoint, and the answer is true iff the endpoint did not raise. |
| Store.InsertGraphTargets | src/langgraphsemantic/store.py:205-212 | An insert sends one update to the update endpoint. Its text reads back as INSERT DATA into the given graph iff the URI is truthy, into the default graph otherwise, with the Turtle body unchanged. |
| Store.DeleteGraphDrops | src/langgraphsemantic/store.py:224-225 | A delete sends exactly `DROP GRAPH <uri>`, which reads back as dropping that graph, and reports whether it was accepted. |
| Store.NewFuseki | src/langgraphsemantic/store.py:247-256 | The query and update endpoints and the shapes and data graph URIs are `base/dataset/` followed by query, update, shapes and data. |
| Store.FusekiLayoutDistinct | src/langgraphsemantic/store.py:247-256 | Those four URIs are pairwise distinct. |
| Store.NamedGraphsApart | src/langgraphsemantic/store.py:269-270 | Distinct shape names get distinct shape graphs, and no shape graph is the data graph `data/model` of any model (store.py line 314). |
| Store.GetShape | src/langgraphsemantic/store.py:285-300 | One CONSTRUCT request for the shape's graph is sent. A graph is returned iff the endpoint did not raise, and it is exactly the graph the CONSTRUCT answered. |
| Store.StoreShapeTargets | src/langgraphsemantic/store.py:269-273 | When the graph URI holds no `>`, `store_shape` sends one update, which reads back as inserting the shape's Turtle into `shapes/name`. |
| Store.GetShapeReads | src/langgraphsemantic/store.py:285-294 | The only graph the `get_shape` query can be read as naming is `shapes/name`. |
| Store.StoreAndGetShareGraph | src/langgraphsemantic/store.py:269-297 | `store_shape` writes the shape into exactly the named graph that `get_shape` reads. |
| Store.ValidationIgnoresData | src/langgraphsemantic/store.py:333-343 | The report never depends on the data graph. It is "Shape not found" iff the shape query raised or came back empty, and a conforming placeholder otherwise. The only request is the shape query. |
| Registry.NewRegistry | src/langgraphsemantic/integration.py:214-217 | A new registry has no models. |
| Registry.RegisterModel | src/langgraphsemantic/integration.py:229-245 | When some field's regex is kept as text, generating the shape raises, and the caught exception gives false with no request and the registry unchanged. Otherwise exactly one shape insert is sent, even for a name already registered. The answer is true iff the store accepted it. On success the class is recorded under its name, replacing any earlier one. On failure the registry is unchanged. |
| Registry.GetModel | src/langgraphsemantic/integration.py:257 | A class is returned iff one is registered under the name, and it is that class. |
| Registry.RegisterThenGet | src/langgraphsemantic/integration.py:229-257 | After registration, `get_model` returns the class under its name iff the shape was accepted, and answers every other name as before. |
| Registry.RegisterStoresGeneratedShape | src/langgraphsemantic/integration.py:233-236 | The registration update reads back as inserting the Turtle of exactly the generated shape, into the graph `get_shape` reads. |
| Registry.ValidateInstance | src/langgraphsemantic/integration.py:269-291 | An unregistered model is refused with "Model not registered" and no request. Otherwise one shape query is sent; the report conforms iff the shape came back non-empty, and is "Shape not found" otherwise. |
| Registry.ValidationDependsOnNameOnly | src/langgraphsemantic/integration.py:269-291 | Instances of the same model get the same report, and validating the flattened graph answers as validating the full instance graph would. |
| Registry.RegisteredModelsAreValidated | src/langgraphsemantic/integration.py:238-272 | After a successful registration, instances of that class are never refused as unregistered. |
| Semantic.NewSemantic | src/langgraphsemantic/main.py:34-41 | The entry point and its registry share one store and one namespace; the store is the dataset's Fuseki layout, and no model is registered. |
| Semantic.StoreInstance | src/langgraphsemantic/main.py:65-77 | A registered model's instance is sent as one data insert, and the answer is whether it was accepted. An unregistered model is registered first. If that fails, the answer is false and only registration's requests were sent: the shape insert, or nothing when generating the shape raised. Otherwise the data insert follows. Store and namespace stay shared throughout. |
| Semantic.StoredInstancesAreRegistered | src/langgraphsemantic/main.py:65-77 | Whenever storing succeeds, the model is registered afterwards. The last request is the data insert of the instance's full graph, and that graph contains the graph validation uses. |
| Semantic.DataInsertTargetsModelGraph | src/langgraphsemantic/main.py:74-77 | The data insert reads back as inserting the instance's full Turtle into its model's data graph, which is never a shape graph. |

The functions that compute, with the lines of LangGraphSemantic they model and the rows above that state them:

- `TypeMapping.MapType` (src/langgraphsemantic/core.py:159-185): `MapTypeIsClassifyOfPeel` and the other `TypeMapping` rows.
- `Instances.InstanceToRdf` (src/langgraphsemantic/main.py:112-164): `InstanceSubjects`, `OwnTriples`, `TypeTripleUnique` and the per-field rows.
- `Instances.ValidationGraph` (src/langgraphsemantic/integration.py:276-288): `ValidationGraphWithin`, `ValidationGraphOfFlatInstance`, `ValidationGraphSkipsStructured`.
- `Bindings.Decode` (src/langgraphsemantic/store.py:129-156): `DecodeEncode`, `DatatypeWinsOverLang`, `DecodedKinds`.
- `Sparql.Render` (src/langgraphsemantic/store.py:205-225): `ParseRender`, `ParseTargetedInsert`, `ParseUntargetedInsert`.
- `Store.InsertGraph` and `Store.DeleteGraph` (src/langgraphsemantic/store.py:194-231): `InsertGraphTargets`, `DeleteGraphDrops`.
- `Store.StoreShape` (src/langgraphsemantic/store.py:258-273): `StoreShapeTargets`, `StoreAndGetShareGraph`.
- `Store.StoreInstanceData` (src/langgraphsemantic/store.py:302-317): `Semantic.DataInsertTargetsModelGraph`.
- `Store.ValidateAgainstShape` (src/langgraphsemantic/store.py:319-343): `ValidationIgnoresData`.

## Left out

- Network and transport: SPARQLWrapper, HTTP, JSON parsing and result formats are the `Oracle`. `test_connection`, `close` and `execute_ask` are out of scope and not modelled.
- `execute_construct` is the oracle's CONSTRUCT answer itself; the conversion of the reply into a graph is not modelled.
- Turtle serialization is an opaque function of the graph. Namespace bindings (`graph.bind`) only affect serialization prefixes and are not modelled.
- `_extract_validators`, the `validators` and `config` entries of the model info, and Python reflection (`__fields__`, `outer_type_`, `inspect`) are not modelled. `Host` values stand for what reflection returns. Field names within a class are assumed distinct, as Pydantic guarantees.
- `id()` is the instance's `oid`; the model does not produce distinct ids itself. `TypeTripleUniqueForDistinctIds` takes their distinctness as a precondition.
- Instances: `.dict()` in Pydantic turns nested models into dictionaries, which the fold then skips (an `Opaque` value). `Nested` models the branch as written, for values that are models. Which of the two a given Pydantic version yields is not modelled.
- Literal values are kept as written. rdflib treats `Literal(1)` and `Literal("1", datatype=xsd:integer)` as equal terms; the model keeps native and typed literals apart. Floats are an opaque text, and regex patterns are never evaluated.
- Bindings.Decode and Store.ExecuteSelect: require a "value" entry for uri, literal and bnode terms, as the results format mandates (`ExecuteSelect` through `WellFormedAnswer`). When the entry is missing, the code passes `None` to the term constructor; that case is not modelled.
- Introspection.ConstraintsAreDeclaredBounds, Shapes.FieldBoundsCompiled and the other `Introspection` and `Shapes` members require no text regex (`Introspectable` or `!PatternRaises`). For a text regex the code raises instead of returning a dictionary or a graph, so there is nothing to state; `Registry.RegisterModel` states what the caller then sees.
- Exceptions while generating a shape: the one the code raises for every regex declared through Pydantic v1's `Field(regex=...)` is modelled. That regex is kept as text, so reading `.pattern` from it raises, and `register_model` answers false. Other exceptions (from reflection or rdflib) are not modelled, and neither are printed diagnostics.
- The LangChain adapters (`SemanticMemory`, `SemanticRetriever`, `create_memory`, `create_retriever`) and the delegating wrappers `LangGraphSemantic.register_model` and `validate_instance` have no rows; the wrappers only forward to the registry.
- Real SHACL validation, content hashing, deduplication, retries and transactions are not implemented by LangGraphSemantic and are not modelled; `validate_against_shape` is its placeholder.
- Packaging metadata (`setup.py`) is not part of this model.
