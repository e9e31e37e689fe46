/**
 * The SPARQL text the store layer sends: the two SPARQL 1.1 Update operations it builds
 * (INSERT DATA, section 3.1.1, and DROP GRAPH, section 3.2.2, of SPARQL 1.1 Update) and the
 * CONSTRUCT query that reads one named graph back.
 */
module Sparql {
  import opened Options

  predicate StartsWith(s: string, prefix: string)
  {
    prefix <= s
  }

  predicate EndsWith(s: string, suffix: string)
  {
    |suffix| <= |s| && s[|s| - |suffix|..] == suffix
  }

  /** Index of the first `c` in `s`, or `|s|` when there is none. */
  function IndexOf(s: string, c: char): (k: nat)
    ensures k <= |s|
    ensures forall j :: 0 <= j < k ==> s[j] != c
    ensures k < |s| ==> s[k] == c
  {
    if |s| == 0 then 0 else if s[0] == c then 0 else 1 + IndexOf(s[1..], c)
  }

  /** An update the store layer issues. `body` is the graph's Turtle serialization, kept opaque. */
  datatype UpdateOp = InsertData(target: Option<string>, body: string) | DropGraph(graph: string)

  /** `insert_graph`'s two f-strings and `delete_graph`'s one. */
  function Render(op: UpdateOp): string
  {
    match op
    case InsertData(Some(u), body) => "INSERT DATA { GRAPH <" + u + "> { " + body + " } }"
    case InsertData(None, body) => "INSERT DATA { " + body + " }"
    case DropGraph(u) => "DROP GRAPH <" + u + ">"
  }

  /** Reads back which operation a rendered update text performs, and on which graph. */
  function Parse(text: string): Option<UpdateOp>
  {
    if StartsWith(text, "DROP GRAPH <") && |text| >= 13 && text[|text| - 1] == '>' then
      Some(DropGraph(text[12..|text| - 1]))
    else if StartsWith(text, "INSERT DATA { GRAPH <") then
      var rest := text[21..];
      var k := IndexOf(rest, '>');
      var tail := rest[k..];
      if |tail| >= 8 && StartsWith(tail, "> { ") && EndsWith(tail, " } }") then
        Some(InsertData(Some(rest[..k]), tail[4..|tail| - 4]))
      else None
    else if StartsWith(text, "INSERT DATA { ") && |text| >= 16 && EndsWith(text, " }") then
      Some(InsertData(None, text[14..|text| - 2]))
    else None
  }

  /**
   * The operations whose text can be read back unambiguously: a graph IRI holds no `>` (IRIs
   * cannot), and an untargeted body does not itself begin like a GRAPH block (Turtle cannot).
   */
  predicate Readable(op: UpdateOp)
  {
    match op
    case InsertData(Some(u), _) => '>' !in u
    case InsertData(None, body) => !StartsWith(body, "GRAPH <")
    case DropGraph(_) => true
  }

  /** In `u + rest` with no `>` in `u` and `rest` starting with `>`, the first `>` ends `u`. */
  lemma FirstCloseAfter(u: string, rest: string)
    requires '>' !in u && |rest| > 0 && rest[0] == '>'
    ensures IndexOf(u + rest, '>') == |u|
  {
    var s := u + rest;
    assert s[|u|] == '>';
    assert forall j :: 0 <= j < |u| ==> s[j] == u[j];
  }

  lemma ParseTargetedInsert(u: string, body: string)
    requires '>' !in u
    ensures Parse(Render(InsertData(Some(u), body))) == Some(InsertData(Some(u), body))
  {
    var text := Render(InsertData(Some(u), body));
    var close := "> { " + body + " } }";
    var rest := u + close;
    assert text == "INSERT DATA { GRAPH <" + rest;
    assert StartsWith(text, "INSERT DATA { GRAPH <");
    assert text[21..] == rest;
    assert !StartsWith(text, "DROP GRAPH <") by { assert text[0] == 'I'; }
    FirstCloseAfter(u, close);
    assert rest[..|u|] == u && rest[|u|..] == close;
    assert StartsWith(close, "> { ") && EndsWith(close, " } }");
    assert close[4..|close| - 4] == body;
  }

  lemma ParseUntargetedInsert(body: string)
    requires !StartsWith(body, "GRAPH <")
    ensures Parse(Render(InsertData(None, body))) == Some(InsertData(None, body))
  {
    var text := Render(InsertData(None, body));
    assert text[0] == 'I';
    var graphPrefix := "INSERT DATA { GRAPH <";
    if |body| >= 7 {
      assert text[14..21] == body[..7];
      assert body[..7] != "GRAPH <";
      assert graphPrefix[14..21] == "GRAPH <";
      assert text[..21][14..21] == text[14..21];
    } else if |body| == 6 {
      assert text[20] == ' ';
    } else if |body| == 5 {
      assert text[20] == '}';
    }
    assert !StartsWith(text, graphPrefix);
    assert text[14..|text| - 2] == body;
  }

  /** Rendering loses nothing: the operation, its target graph and its body are recoverable. */
  lemma ParseRender(op: UpdateOp)
    requires Readable(op)
    ensures Parse(Render(op)) == Some(op)
  {
    match op
    case InsertData(Some(u), body) => ParseTargetedInsert(u, body);
    case InsertData(None, body) => ParseUntargetedInsert(body);
    case DropGraph(u) =>
      var text := Render(op);
      assert text[12..|text| - 1] == u;
  }

  /** `get_shape`'s CONSTRUCT query: every triple of the named graph `u`. */
  function ConstructQuery(u: string): string
  {
    "\n        CONSTRUCT { ?s ?p ?o }\n        WHERE {\n            GRAPH <" + u
    + "> {\n                ?s ?p ?o\n            }\n        }\n        "
  }

  lemma ConcatCancel(p: string, u: string, v: string, s: string)
    requires p + u + s == p + v + s
    ensures u == v
  {
    assert |u| == |v|;
    assert u == (p + u + s)[|p|..|p| + |u|];
    assert v == (p + v + s)[|p|..|p| + |v|];
  }

  /** The CONSTRUCT query names its graph: distinct graphs give distinct queries. */
  lemma ConstructQueryNamesGraph(u: string, v: string)
    ensures ConstructQuery(u) == ConstructQuery(v) ==> u == v
  {
    if ConstructQuery(u) == ConstructQuery(v) {
      ConcatCancel("\n        CONSTRUCT { ?s ?p ?o }\n        WHERE {\n            GRAPH <", u, v,
                   "> {\n                ?s ?p ?o\n            }\n        }\n        ");
    }
  }
}
