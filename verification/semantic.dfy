/**
 * `LangGraphSemantic`: the entry point tying a Fuseki store, the base namespace and the model
 * registry together, and storing instances.
 */
module Semantic {
  import opened Options
  import opened Rdf
  import opened Host
  import opened Instances
  import opened Sparql
  import opened Store
  import opened Registry

  datatype System = System(fusekiUrl: string, dataset: string, ns: string, store: Fuseki, registry: Registry)

  /** The entry point and its registry share one store and one namespace. */
  predicate Coherent(sys: System)
  {
    sys.registry.store == sys.store && sys.registry.ns == sys.ns
  }

  /** `LangGraphSemantic.__init__`: a Fuseki store for the dataset and an empty registry over it. */
  function NewSemantic(fusekiUrl: string, dataset: string, ns: string): (sys: System)
    ensures Coherent(sys)
    ensures sys.store == NewFuseki(fusekiUrl, dataset) && sys.ns == ns
    ensures forall name :: name !in sys.registry.models
  {
    var store := NewFuseki(fusekiUrl, dataset);
    System(fusekiUrl, dataset, ns, store, NewRegistry(store, ns))
  }

  /** The update that stores an instance's full graph into its model's data graph. */
  function DataInsertText(sys: System, inst: Instance, oracle: Oracle): string
  {
    Render(InsertData(Some(DataGraphUri(sys.store, inst.cls.name)), oracle.turtle(InstanceToRdf(sys.ns, inst))))
  }

  /**
   * `store_instance`: an instance of an unregistered model first registers its class; if that
   * fails nothing else is sent and the answer is false. Otherwise the instance's full graph is
   * inserted into the model's data graph and the answer is whether that insert was accepted.
   */
  function StoreInstance(sys: System, inst: Instance, seed: nat, oracle: Oracle): (r: Sent<(bool, System)>)
    ensures Coherent(sys) ==> Coherent(r.result.1)
    ensures r.result.1.store == sys.store && r.result.1.ns == sys.ns
    ensures var dataInsert := UpdateRequest(sys.store.connection.updateEndpoint, DataInsertText(sys, inst, oracle));
      var stored := oracle.update(sys.store.connection.updateEndpoint, DataInsertText(sys, inst, oracle)).Ok?;
      if inst.cls.name in sys.registry.models then
        && r.result.1 == sys
        && r.requests == [dataInsert]
        && (r.result.0 <==> stored)
      else
        var registration := RegisterModel(sys.registry, inst.cls, seed, oracle);
        && r.result.1 == sys.(registry := registration.result.registry)
        && (registration.result.ok ==> r.requests == registration.requests + [dataInsert] && (r.result.0 <==> stored))
        && (!registration.result.ok ==> r.requests == registration.requests && !r.result.0)
  {
    var name := inst.cls.name;
    var registration :=
      if GetModel(sys.registry, name).None? then Some(RegisterModel(sys.registry, inst.cls, seed, oracle)) else None;
    if registration.Some? && !registration.value.result.ok then
      Sent((false, sys.(registry := registration.value.result.registry)), registration.value.requests)
    else
      var sys' := if registration.Some? then sys.(registry := registration.value.result.registry) else sys;
      var before := if registration.Some? then registration.value.requests else [];
      var data := StoreInstanceData(sys.store, InstanceToRdf(sys.ns, inst), name, oracle);
      Sent((data.result, sys'), before + data.requests)
  }

  /**
   * Whenever `store_instance` reports success, the instance's model is registered afterwards,
   * the data went to that model's data graph, and the graph sent is the instance's full graph
   * (which contains its validation graph).
   */
  lemma StoredInstancesAreRegistered(sys: System, inst: Instance, seed: nat, oracle: Oracle)
    requires StoreInstance(sys, inst, seed, oracle).result.0
    ensures inst.cls.name in StoreInstance(sys, inst, seed, oracle).result.1.registry.models
    ensures var r := StoreInstance(sys, inst, seed, oracle);
      r.requests[|r.requests| - 1] == UpdateRequest(sys.store.connection.updateEndpoint, DataInsertText(sys, inst, oracle))
    ensures ValidationGraph(sys.ns, inst) <= InstanceToRdf(sys.ns, inst)
  {
    ValidationGraphWithin(sys.ns, inst);
  }

  /**
   * The update for an instance reads back as inserting the Turtle of its full graph into the
   * data graph of its model, which is never a shape graph of the same store.
   */
  lemma DataInsertTargetsModelGraph(fusekiUrl: string, dataset: string, ns: string, inst: Instance, oracle: Oracle)
    requires '>' !in DataGraphUri(NewFuseki(fusekiUrl, dataset), inst.cls.name)
    ensures var sys := NewSemantic(fusekiUrl, dataset, ns);
      Parse(DataInsertText(sys, inst, oracle))
        == Some(InsertData(Some(DataGraphUri(sys.store, inst.cls.name)), oracle.turtle(InstanceToRdf(ns, inst))))
    ensures forall name :: ShapeGraphUri(NewFuseki(fusekiUrl, dataset), name) != DataGraphUri(NewFuseki(fusekiUrl, dataset), inst.cls.name)
  {
    var sys := NewSemantic(fusekiUrl, dataset, ns);
    ParseRender(InsertData(Some(DataGraphUri(sys.store, inst.cls.name)), oracle.turtle(InstanceToRdf(ns, inst))));
    forall name ensures ShapeGraphUri(NewFuseki(fusekiUrl, dataset), name) != DataGraphUri(NewFuseki(fusekiUrl, dataset), inst.cls.name) {
      NamedGraphsApart(fusekiUrl, dataset, name, name, inst.cls.name);
    }
  }
}
