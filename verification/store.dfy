/**
 * The store layer: `StoreConnection`, `QueryExecutor`, `UpdateExecutor` and `FusekiStore`.
 * The SPARQL endpoint is an oracle: for each request it either answers or raises. Every
 * operation also returns the requests it sent, in order.
 */
module Store {
  import opened Options
  import opened Rdf
  import opened Bindings
  import opened Sparql
  import opened Strings

  /**
   * The world outside the model: Turtle serialization (opaque), and what the endpoint answers
   * to an update, a SELECT and a CONSTRUCT sent to a given URL.
   */
  datatype Oracle = Oracle(
    turtle: Graph -> string,
    update: (string, string) -> Reply<()>,
    select: (string, string) -> Reply<seq<Row>>,
    construct: (string, string) -> Reply<Graph>)

  datatype Request = UpdateRequest(endpoint: string, text: string) | QueryRequest(endpoint: string, text: string)

  /** A result together with the requests sent to compute it. */
  datatype Sent<T> = Sent(result: T, requests: seq<Request>)

  datatype Connection = Connection(endpointUrl: string, updateEndpoint: string)

  /** `StoreConnection.__init__`: `update_endpoint or endpoint_url`. */
  function NewConnection(endpointUrl: string, updateEndpoint: Option<string>): (c: Connection)
    ensures c.endpointUrl == endpointUrl
    ensures Truthy(updateEndpoint) ==> c.updateEndpoint == updateEndpoint.value
    ensures !Truthy(updateEndpoint) ==> c.updateEndpoint == endpointUrl
  {
    Connection(endpointUrl, if Truthy(updateEndpoint) then updateEndpoint.value else endpointUrl)
  }

  /** Every term object of a successful SELECT answer has the "value" decoding relies on. */
  predicate WellFormedAnswer(reply: Reply<seq<Row>>)
  {
    reply.Ok? ==> forall i, v :: 0 <= i < |reply.value| && v in reply.value[i] ==> WellFormed(reply.value[i][v])
  }

  /**
   * `execute_select`: one converted dictionary per solution, in the order the endpoint sent
   * them, with the same variables. A failing endpoint is not caught here: it propagates.
   */
  method ExecuteSelect(conn: Connection, query: string, oracle: Oracle)
    returns (r: Reply<seq<map<string, Decoded>>>, sent: seq<Request>)
    requires WellFormedAnswer(oracle.select(conn.endpointUrl, query))
    ensures sent == [QueryRequest(conn.endpointUrl, query)]
    ensures r.Raised? <==> oracle.select(conn.endpointUrl, query).Raised?
    ensures r.Raised? ==> r.message == oracle.select(conn.endpointUrl, query).message
    ensures r.Ok? ==>
      var rows := oracle.select(conn.endpointUrl, query).value;
      && |r.value| == |rows|
      && forall i :: 0 <= i < |rows| ==>
           && r.value[i].Keys == rows[i].Keys
           && forall v :: v in rows[i] ==> r.value[i][v] == Decode(rows[i][v])
  {
    sent := [QueryRequest(conn.endpointUrl, query)];
    var reply := oracle.select(conn.endpointUrl, query);
    if reply.Raised? {
      return Raised(reply.message), sent;
    }
    var rows := reply.value;
    var bindings: seq<map<string, Decoded>> := [];
    var i := 0;
    while i < |rows|
      invariant 0 <= i <= |rows|
      invariant |bindings| == i
      invariant forall j :: 0 <= j < i ==>
        && bindings[j].Keys == rows[j].Keys
        && forall v :: v in rows[j] ==> bindings[j][v] == Decode(rows[j][v])
    {
      var row := rows[i];
      var converted := map v | v in row :: Decode(row[v]);
      bindings := bindings + [converted];
      i := i + 1;
    }
    r := Ok(bindings);
  }

  /** `execute_update`: true iff the endpoint accepted the update; a raised error becomes false. */
  function ExecuteUpdate(conn: Connection, text: string, oracle: Oracle): (r: Sent<bool>)
    ensures r.requests == [UpdateRequest(conn.updateEndpoint, text)]
    ensures r.result <==> oracle.update(conn.updateEndpoint, text).Ok?
  {
    match oracle.update(conn.updateEndpoint, text)
    case Ok(_) => Sent(true, [UpdateRequest(conn.updateEndpoint, text)])
    case Raised(_) => Sent(false, [UpdateRequest(conn.updateEndpoint, text)])
  }

  /** The graph an insert targets: the given URI when it is truthy, the default graph otherwise. */
  function InsertTarget(graphUri: Option<string>): Option<string>
  {
    if Truthy(graphUri) then Some(graphUri.value) else None
  }

  /** `insert_graph`: one INSERT DATA over the graph's Turtle, wrapped in GRAPH when a URI is given. */
  function InsertGraph(conn: Connection, g: Graph, graphUri: Option<string>, oracle: Oracle): Sent<bool>
  {
    ExecuteUpdate(conn, Render(InsertData(InsertTarget(graphUri), oracle.turtle(g))), oracle)
  }

  /** `delete_graph`: `DROP GRAPH <uri>`. */
  function DeleteGraph(conn: Connection, graphUri: string, oracle: Oracle): Sent<bool>
  {
    ExecuteUpdate(conn, Render(DropGraph(graphUri)), oracle)
  }

  /**
   * An insert sends one update to the update endpoint whose text reads back as INSERT DATA
   * into the given graph iff its URI is truthy, into the default graph otherwise, carrying
   * the Turtle body unchanged.
   */
  lemma InsertGraphTargets(conn: Connection, g: Graph, graphUri: Option<string>, oracle: Oracle)
    requires Truthy(graphUri) ==> '>' !in graphUri.value
    requires !Truthy(graphUri) ==> !StartsWith(oracle.turtle(g), "GRAPH <")
    ensures |InsertGraph(conn, g, graphUri, oracle).requests| == 1
    ensures InsertGraph(conn, g, graphUri, oracle).requests[0].UpdateRequest?
    ensures InsertGraph(conn, g, graphUri, oracle).requests[0].endpoint == conn.updateEndpoint
    ensures Parse(InsertGraph(conn, g, graphUri, oracle).requests[0].text)
         == Some(InsertData(if Truthy(graphUri) then Some(graphUri.value) else None, oracle.turtle(g)))
  {
    ParseRender(InsertData(InsertTarget(graphUri), oracle.turtle(g)));
  }

  /** A delete sends exactly `DROP GRAPH <uri>`, which reads back as dropping that graph. */
  lemma DeleteGraphDrops(conn: Connection, graphUri: string, oracle: Oracle)
    ensures DeleteGraph(conn, graphUri, oracle).requests
         == [UpdateRequest(conn.updateEndpoint, "DROP GRAPH <" + graphUri + ">")]
    ensures Parse(DeleteGraph(conn, graphUri, oracle).requests[0].text) == Some(DropGraph(graphUri))
    ensures DeleteGraph(conn, graphUri, oracle).result <==>
      oracle.update(conn.updateEndpoint, "DROP GRAPH <" + graphUri + ">").Ok?
  {
    ParseRender(DropGraph(graphUri));
  }

  // -----------------------------------------------------------------------------------------
  // FusekiStore

  datatype Fuseki = Fuseki(
    baseUrl: string,
    dataset: string,
    connection: Connection,
    shapesGraphUri: string,
    dataGraphUri: string)

  /** The prefix every URI of a Fuseki dataset shares: `base/dataset/`. */
  function DatasetPrefix(baseUrl: string, dataset: string): string
  {
    baseUrl + "/" + dataset + "/"
  }

  function NewFuseki(baseUrl: string, dataset: string): (s: Fuseki)
    ensures s.connection.endpointUrl == DatasetPrefix(baseUrl, dataset) + "query"
    ensures s.connection.updateEndpoint == DatasetPrefix(baseUrl, dataset) + "update"
    ensures s.shapesGraphUri == DatasetPrefix(baseUrl, dataset) + "shapes"
    ensures s.dataGraphUri == DatasetPrefix(baseUrl, dataset) + "data"
  {
    var queryEndpoint := baseUrl + "/" + dataset + "/query";
    var updateEndpoint := baseUrl + "/" + dataset + "/update";
    Fuseki(baseUrl, dataset, NewConnection(queryEndpoint, Some(updateEndpoint)),
           baseUrl + "/" + dataset + "/shapes", baseUrl + "/" + dataset + "/data")
  }

  /** The query endpoint, the update endpoint, the shapes graph and the data graph are four distinct URIs. */
  lemma FusekiLayoutDistinct(baseUrl: string, dataset: string)
    ensures var s := NewFuseki(baseUrl, dataset);
      && s.connection.endpointUrl != s.connection.updateEndpoint
      && s.connection.endpointUrl != s.shapesGraphUri && s.connection.endpointUrl != s.dataGraphUri
      && s.connection.updateEndpoint != s.shapesGraphUri && s.connection.updateEndpoint != s.dataGraphUri
      && s.shapesGraphUri != s.dataGraphUri
  {
    var p := DatasetPrefix(baseUrl, dataset);
    var names := ["query", "update", "shapes", "data"];
    forall x, y | x in names && y in names && x != y ensures p + x != p + y {
      if p + x == p + y {
        PrefixCancel(p, x, y);
      }
    }
  }

  /** `store_shape` and `get_shape` both address `shapes_graph_uri + "/" + shape_name`. */
  function ShapeGraphUri(s: Fuseki, shapeName: string): string
  {
    s.shapesGraphUri + "/" + shapeName
  }

  /** `store_instance_data` addresses `data_graph_uri + "/" + model_name`. */
  function DataGraphUri(s: Fuseki, modelName: string): string
  {
    s.dataGraphUri + "/" + modelName
  }

  /** In a Fuseki layout, distinct names get distinct shape graphs, and no shape graph is a data graph. */
  lemma NamedGraphsApart(baseUrl: string, dataset: string, a: string, b: string, m: string)
    ensures var s := NewFuseki(baseUrl, dataset);
      && (ShapeGraphUri(s, a) == ShapeGraphUri(s, b) ==> a == b)
      && ShapeGraphUri(s, a) != DataGraphUri(s, m)
  {
    var s := NewFuseki(baseUrl, dataset);
    var p := DatasetPrefix(baseUrl, dataset);
    assert ShapeGraphUri(s, a) == p + ("shapes/" + a);
    assert ShapeGraphUri(s, b) == p + ("shapes/" + b);
    assert DataGraphUri(s, m) == p + ("data/" + m);
    if ShapeGraphUri(s, a) == ShapeGraphUri(s, b) {
      PrefixCancel(p, "shapes/" + a, "shapes/" + b);
      PrefixCancel("shapes/", a, b);
    }
    assert ShapeGraphUri(s, a)[|p|] == 's';
    assert DataGraphUri(s, m)[|p|] == 'd';
  }

  /** `store_shape`: insert the shape graph into its own named graph. */
  function StoreShape(s: Fuseki, shape: Graph, shapeName: string, oracle: Oracle): Sent<bool>
  {
    InsertGraph(s.connection, shape, Some(ShapeGraphUri(s, shapeName)), oracle)
  }

  /** `get_shape`: CONSTRUCT the named graph back; a failing endpoint yields `None`. */
  function GetShape(s: Fuseki, shapeName: string, oracle: Oracle): (r: Sent<Option<Graph>>)
    ensures r.requests == [QueryRequest(s.connection.endpointUrl, ConstructQuery(ShapeGraphUri(s, shapeName)))]
    ensures r.result.Some? <==> oracle.construct(s.connection.endpointUrl, ConstructQuery(ShapeGraphUri(s, shapeName))).Ok?
    ensures r.result.Some? ==>
      r.result.value == oracle.construct(s.connection.endpointUrl, ConstructQuery(ShapeGraphUri(s, shapeName))).value
  {
    var query := ConstructQuery(ShapeGraphUri(s, shapeName));
    var reply := oracle.construct(s.connection.endpointUrl, query);
    Sent(if reply.Ok? then Some(reply.value) else None, [QueryRequest(s.connection.endpointUrl, query)])
  }

  /**
   * A shape is written to and read from the same named graph: the insert `store_shape` sends
   * targets `ShapeGraphUri(name)`, and the query `get_shape` sends reads exactly that graph.
   */
  lemma StoreAndGetShareGraph(s: Fuseki, shape: Graph, name: string, oracle: Oracle)
    requires '>' !in ShapeGraphUri(s, name)
    ensures Parse(StoreShape(s, shape, name, oracle).requests[0].text)
         == Some(InsertData(Some(ShapeGraphUri(s, name)), oracle.turtle(shape)))
    ensures forall u :: GetShape(s, name, oracle).requests[0].text == ConstructQuery(u) ==> u == ShapeGraphUri(s, name)
  {
    StoreShapeTargets(s, shape, name, oracle);
    GetShapeReads(s, name, oracle);
  }

  lemma StoreShapeTargets(s: Fuseki, shape: Graph, name: string, oracle: Oracle)
    requires '>' !in ShapeGraphUri(s, name)
    ensures |StoreShape(s, shape, name, oracle).requests| == 1
    ensures Parse(StoreShape(s, shape, name, oracle).requests[0].text)
         == Some(InsertData(Some(ShapeGraphUri(s, name)), oracle.turtle(shape)))
  {
    InsertGraphTargets(s.connection, shape, Some(ShapeGraphUri(s, name)), oracle);
  }

  lemma GetShapeReads(s: Fuseki, name: string, oracle: Oracle)
    ensures forall u :: GetShape(s, name, oracle).requests[0].text == ConstructQuery(u) ==> u == ShapeGraphUri(s, name)
  {
    var text := GetShape(s, name, oracle).requests[0].text;
    assert text == ConstructQuery(ShapeGraphUri(s, name));
    forall u | text == ConstructQuery(u) ensures u == ShapeGraphUri(s, name) {
      ConstructQueryNamesGraph(u, ShapeGraphUri(s, name));
    }
  }

  /** `store_instance_data`: insert an instance graph into the named graph of its model. */
  function StoreInstanceData(s: Fuseki, data: Graph, modelName: string, oracle: Oracle): Sent<bool>
  {
    InsertGraph(s.connection, data, Some(DataGraphUri(s, modelName)), oracle)
  }

  /** The dictionary `validate_against_shape` returns. */
  datatype Report = NotValid(error: string) | Valid(conforms: bool, results: seq<string>)

  /**
   * `validate_against_shape`: fails with "Shape not found" when the shape cannot be fetched or
   * is empty; otherwise a placeholder report that always conforms.
   */
  function ValidateAgainstShape(s: Fuseki, data: Graph, shapeName: string, oracle: Oracle): Sent<Report>
  {
    var fetched := GetShape(s, shapeName, oracle);
    var shape := fetched.result;
    if shape.None? || |shape.value| == 0 then Sent(NotValid("Shape not found"), fetched.requests)
    else Sent(Valid(true, []), fetched.requests)
  }

  /**
   * Validation only asks whether a non-empty shape comes back: the data graph is never looked
   * at, and the only request is the shape's CONSTRUCT query.
   */
  lemma ValidationIgnoresData(s: Fuseki, d1: Graph, d2: Graph, name: string, oracle: Oracle)
    ensures ValidateAgainstShape(s, d1, name, oracle) == ValidateAgainstShape(s, d2, name, oracle)
    ensures var reply := oracle.construct(s.connection.endpointUrl, ConstructQuery(ShapeGraphUri(s, name)));
      && ValidateAgainstShape(s, d1, name, oracle).result
           == (if reply.Raised? || |reply.value| == 0 then NotValid("Shape not found") else Valid(true, []))
      && ValidateAgainstShape(s, d1, name, oracle).requests == GetShape(s, name, oracle).requests
  {
  }
}
