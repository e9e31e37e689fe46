/**
 * `SemanticModelRegistry`: which model classes have had their shape stored, keyed by class
 * name, over one Fuseki store and one base namespace.
 */
module Registry {
  import opened Options
  import opened Rdf
  import opened Host
  import opened Introspection
  import opened Sparql
  import opened Shapes
  import opened Instances
  import opened Store

  datatype Registry = Registry(store: Fuseki, ns: string, models: map<string, ModelClass>)

  /** What `register_model` answers, with the registry as it stands afterwards. */
  datatype Registration = Registration(ok: bool, registry: Registry)

  /** A new registry knows no models. */
  function NewRegistry(store: Fuseki, ns: string): (r: Registry)
    ensures r.store == store && r.ns == ns
    ensures forall name :: name !in r.models
  {
    Registry(store, ns, map[])
  }

  /** The update `register_model` sends for a class: its shape, into the class's shape graph. */
  function ShapeInsertText(reg: Registry, cls: ModelClass, seed: nat, oracle: Oracle): string
    requires Introspectable(cls)
  {
    Render(InsertData(Some(ShapeGraphUri(reg.store, cls.name)), oracle.turtle(GenerateShape(reg.ns, cls, seed))))
  }

  /**
   * `register_model`: generate the shape and store it; the class is recorded under its name
   * exactly when the store accepted the shape. The shape is written every time, whether or not
   * the name was registered before, and a new class under a known name replaces the old one.
   * When generating the shape raises (a regex kept as text), the exception is caught: the
   * answer is false and nothing is sent.
   */
  function RegisterModel(reg: Registry, cls: ModelClass, seed: nat, oracle: Oracle): (r: Sent<Registration>)
    ensures !Introspectable(cls) ==> r.requests == [] && !r.result.ok
    ensures Introspectable(cls) ==>
      && r.requests == [UpdateRequest(reg.store.connection.updateEndpoint, ShapeInsertText(reg, cls, seed, oracle))]
      && (r.result.ok <==> oracle.update(reg.store.connection.updateEndpoint, ShapeInsertText(reg, cls, seed, oracle)).Ok?)
    ensures r.result.registry.store == reg.store && r.result.registry.ns == reg.ns
    ensures r.result.ok ==> r.result.registry.models == reg.models[cls.name := cls]
    ensures !r.result.ok ==> r.result.registry.models == reg.models
  {
    if !Introspectable(cls) then Sent(Registration(false, reg), [])
    else
      var shape := GenerateShape(reg.ns, cls, seed);
      var stored := StoreShape(reg.store, shape, cls.name, oracle);
      if stored.result then Sent(Registration(true, reg.(models := reg.models[cls.name := cls])), stored.requests)
      else Sent(Registration(false, reg), stored.requests)
  }

  /** `get_model`: the class registered under a name, if any. */
  function GetModel(reg: Registry, name: string): (r: Option<ModelClass>)
    ensures r.Some? <==> name in reg.models
    ensures r.Some? ==> r.value == reg.models[name]
  {
    if name in reg.models then Some(reg.models[name]) else None
  }

  /**
   * After `register_model`, `get_model` returns the class under its name iff the shape was
   * accepted, and answers every other name as before.
   */
  lemma RegisterThenGet(reg: Registry, cls: ModelClass, seed: nat, oracle: Oracle, name: string)
    ensures var after := RegisterModel(reg, cls, seed, oracle).result;
      GetModel(after.registry, name)
        == if after.ok && name == cls.name then Some(cls) else GetModel(reg, name)
  {
  }

  /**
   * The update `register_model` sends reads back as inserting the Turtle of exactly the shape
   * the generator compiles from the class, into the named graph `get_shape` reads.
   */
  lemma RegisterStoresGeneratedShape(reg: Registry, cls: ModelClass, seed: nat, oracle: Oracle)
    requires Introspectable(cls)
    requires '>' !in ShapeGraphUri(reg.store, cls.name)
    ensures Parse(RegisterModel(reg, cls, seed, oracle).requests[0].text)
         == Some(InsertData(Some(ShapeGraphUri(reg.store, cls.name)), oracle.turtle(GenerateShape(reg.ns, cls, seed))))
  {
    StoreAndGetShareGraph(reg.store, GenerateShape(reg.ns, cls, seed), cls.name, oracle);
  }

  /**
   * `validate_instance`: an instance of an unregistered model is refused without a request;
   * otherwise its flat graph (type and scalar fields) is validated against the model's shape.
   */
  function ValidateInstance(reg: Registry, inst: Instance, oracle: Oracle): (r: Sent<Report>)
    ensures inst.cls.name !in reg.models ==> r == Sent(NotValid("Model not registered"), [])
    ensures inst.cls.name in reg.models ==>
      var query := ConstructQuery(ShapeGraphUri(reg.store, inst.cls.name));
      var reply := oracle.construct(reg.store.connection.endpointUrl, query);
      && r.requests == [QueryRequest(reg.store.connection.endpointUrl, query)]
      && r.result == if reply.Ok? && |reply.value| > 0 then Valid(true, []) else NotValid("Shape not found")
  {
    var name := inst.cls.name;
    if name !in reg.models then Sent(NotValid("Model not registered"), [])
    else ValidateAgainstShape(reg.store, ValidationGraph(reg.ns, inst), name, oracle)
  }

  /**
   * The report depends on the model name only: two instances of the same model get the same
   * report, and validating the flattened graph answers as validating the full instance graph.
   */
  lemma ValidationDependsOnNameOnly(reg: Registry, a: Instance, b: Instance, oracle: Oracle)
    requires a.cls.name == b.cls.name
    ensures ValidateInstance(reg, a, oracle) == ValidateInstance(reg, b, oracle)
    ensures a.cls.name in reg.models ==>
      ValidateInstance(reg, a, oracle) == ValidateAgainstShape(reg.store, InstanceToRdf(reg.ns, a), a.cls.name, oracle)
  {
    ValidationIgnoresData(reg.store, ValidationGraph(reg.ns, a), ValidationGraph(reg.ns, b), a.cls.name, oracle);
    ValidationIgnoresData(reg.store, ValidationGraph(reg.ns, a), InstanceToRdf(reg.ns, a), a.cls.name, oracle);
  }

  /** Once a class is registered, its instances are never refused as unregistered. */
  lemma RegisteredModelsAreValidated(reg: Registry, cls: ModelClass, seed: nat, oracle: Oracle, inst: Instance)
    ensures RegisterModel(reg, cls, seed, oracle).result.ok && inst.cls.name == cls.name ==>
      ValidateInstance(RegisterModel(reg, cls, seed, oracle).result.registry, inst, oracle).result
        != NotValid("Model not registered")
  {
    var after := RegisterModel(reg, cls, seed, oracle).result;
    if after.ok && inst.cls.name == cls.name {
      assert after.registry.models == reg.models[cls.name := cls];
      assert inst.cls.name in after.registry.models;
      var r := ValidateInstance(after.registry, inst, oracle);
      assert r.result == Valid(true, []) || r.result == NotValid("Shape not found");
    }
  }
}
