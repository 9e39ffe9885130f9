/** The workflow validator and the structural execution check of the builder benchmark. */
module Builder {
  import opened Wrappers

  /** A parsed JSON value; objects keep their keys in order. */
  datatype Json =
    | Null
    | Bool(b: bool)
    | Num(n: real)
    | Str(s: string)
    | Arr(items: seq<Json>)
    | Obj(fields: seq<(string, Json)>)

  function Get(fields: seq<(string, Json)>, key: string): Option<Json> {
    if fields == [] then None
    else if fields[0].0 == key then Some(fields[0].1)
    else Get(fields[1..], key)
  }

  function Field(j: Json, key: string): Option<Json> {
    if j.Obj? then Get(j.fields, key) else None
  }

  datatype Problem =
    | RootNotObject | MissingKeys | NodesNotNonEmptyList | ConnectionsNotObject
    | NodeNotObject | NodeIncomplete | TypeNotWhitelisted | DuplicateNames
    | UnknownSource | EdgesNotList | EdgeWithoutNode | UnknownTarget
    | RequiredMissing | TooFewNodes

  const NODE_WHITELIST: set<string> := {"webhook", "function", "if", "set", "http", "schedule", "code"}

  /** `str(v)` and `str(v).lower()` of a JSON value; for a string the former is the string itself. */
  datatype Strings = Strings(str: Json -> string, lower: string -> string)

  datatype Reference = Reference(requiredNodes: seq<string>, minNodes: int)

  // ----- what the validator promises ----------------------------------------------

  predicate GoodNode(j: Json, st: Strings) {
    && j.Obj? && Field(j, "name").Some? && Field(j, "type").Some?
    && st.lower(st.str(Field(j, "type").value)) in NODE_WHITELIST
  }

  function NodeName(j: Json, st: Strings): string {
    match Field(j, "name")
    case Some(name) => st.str(name)
    case None => ""
  }

  function NodeType(j: Json, st: Strings): string {
    match Field(j, "type")
    case Some(t) => st.lower(st.str(t))
    case None => ""
  }

  function Names(nodes: seq<Json>, st: Strings): (r: seq<string>)
    ensures |r| == |nodes| && forall i :: 0 <= i < |nodes| ==> r[i] == NodeName(nodes[i], st)
  {
    seq(|nodes|, i requires 0 <= i < |nodes| => NodeName(nodes[i], st))
  }

  predicate GoodEdge(e: Json, names: seq<string>) {
    e.Obj? && match Field(e, "node") case Some(Str(dst)) => dst in names case _ => false
  }

  predicate GoodConnection(c: (string, Json), names: seq<string>) {
    c.0 in names && c.1.Arr? && forall e :: e in c.1.items ==> GoodEdge(e, names)
  }

  predicate Distinct(names: seq<string>) {
    forall i, j :: 0 <= i < j < |names| ==> names[i] != names[j]
  }

  predicate HasType(nodes: seq<Json>, t: string, st: Strings) {
    exists n :: n in nodes && NodeType(n, st) == t
  }

  function NodesOf(j: Json): seq<Json> {
    match Field(j, "nodes") case Some(Arr(items)) => items case _ => []
  }

  function ConnectionsOf(j: Json): seq<(string, Json)> {
    match Field(j, "connections") case Some(Obj(fields)) => fields case _ => []
  }

  /** An accepted workflow, as the prompt asks for it. */
  predicate Accepted(j: Json, ref: Reference, st: Strings) {
    && j.Obj? && Field(j, "nodes").Some? && Field(j, "nodes").value.Arr? && NodesOf(j) != []
    && Field(j, "connections").Some? && Field(j, "connections").value.Obj?
    && (forall n :: n in NodesOf(j) ==> GoodNode(n, st))
    && Distinct(Names(NodesOf(j), st))
    && (forall c :: c in ConnectionsOf(j) ==> GoodConnection(c, Names(NodesOf(j), st)))
    && (forall t :: t in ref.requiredNodes ==> HasType(NodesOf(j), st.lower(t), st))
    && |NodesOf(j)| >= ref.minNodes
  }

  // ----- what each verdict means -----------------------------------------------------

  predicate NodeProblem(p: Problem, n: Json, st: Strings) {
    match p
    case NodeNotObject => !n.Obj?
    case NodeIncomplete => n.Obj? && (Field(n, "name").None? || Field(n, "type").None?)
    case TypeNotWhitelisted => n.Obj? && Field(n, "type").Some? && NodeType(n, st) !in NODE_WHITELIST
    case _ => false
  }

  predicate EdgeProblem(p: Problem, e: Json, names: seq<string>) {
    match p
    case EdgeWithoutNode => !e.Obj? || Field(e, "node").None?
    case UnknownTarget => Field(e, "node").Some? && !GoodEdge(e, names)
    case _ => false
  }

  predicate ConnectionProblem(p: Problem, c: (string, Json), names: seq<string>) {
    match p
    case UnknownSource => c.0 !in names
    case EdgesNotList => !c.1.Arr?
    case _ => c.1.Arr? && exists e :: e in c.1.items && EdgeProblem(p, e, names)
  }

  /** The workflow really has the problem the validator names. */
  predicate HasProblem(p: Problem, j: Json, ref: Reference, st: Strings) {
    match p
    case RootNotObject => !j.Obj?
    case MissingKeys => Field(j, "nodes").None? || Field(j, "connections").None?
    case NodesNotNonEmptyList => Field(j, "nodes").Some? && NodesOf(j) == []
    case ConnectionsNotObject => Field(j, "connections").Some? && !Field(j, "connections").value.Obj?
    case DuplicateNames => !Distinct(Names(NodesOf(j), st))
    case RequiredMissing => exists t :: t in ref.requiredNodes && !HasType(NodesOf(j), st.lower(t), st)
    case TooFewNodes => |NodesOf(j)| < ref.minNodes
    case _ =>
      || (exists n :: n in NodesOf(j) && NodeProblem(p, n, st))
      || (exists c :: c in ConnectionsOf(j) && ConnectionProblem(p, c, Names(NodesOf(j), st)))
  }

  lemma BadNode(n: Json, st: Strings)
    ensures !GoodNode(n, st)
       <==> NodeProblem(NodeNotObject, n, st) || NodeProblem(NodeIncomplete, n, st) || NodeProblem(TypeNotWhitelisted, n, st)
  {
  }

  lemma BadConnection(c: (string, Json), names: seq<string>)
    ensures !GoodConnection(c, names)
       <==> || ConnectionProblem(UnknownSource, c, names) || ConnectionProblem(EdgesNotList, c, names)
            || ConnectionProblem(EdgeWithoutNode, c, names) || ConnectionProblem(UnknownTarget, c, names)
  {
  }

  /** A workflow is accepted exactly when none of the fourteen problems is there. */
  lemma AcceptedIff(j: Json, ref: Reference, st: Strings)
    ensures Accepted(j, ref, st) <==> forall p :: !HasProblem(p, j, ref, st)
  {
    hide GoodNode, GoodConnection, NodeProblem, ConnectionProblem;
    if Accepted(j, ref, st) {
      forall p
        ensures !HasProblem(p, j, ref, st)
      {
        AcceptedHasNone(p, j, ref, st);
      }
    } else {
      var p := SomeProblem(j, ref, st);
    }
  }

  lemma AcceptedHasNone(p: Problem, j: Json, ref: Reference, st: Strings)
    requires Accepted(j, ref, st)
    ensures !HasProblem(p, j, ref, st)
  {
    hide Distinct, HasType;
    var names := Names(NodesOf(j), st);
    forall n | n in NodesOf(j)
      ensures !NodeProblem(p, n, st)
    {
      assert GoodNode(n, st);
    }
    forall c | c in ConnectionsOf(j)
      ensures p in {UnknownSource, EdgesNotList, EdgeWithoutNode, UnknownTarget} ==> !ConnectionProblem(p, c, names)
    {
      BadConnection(c, names);
    }
    hide GoodNode, GoodConnection, NODE_WHITELIST;
  }

  lemma SomeProblem(j: Json, ref: Reference, st: Strings) returns (p: Problem)
    requires !Accepted(j, ref, st)
    ensures HasProblem(p, j, ref, st)
  {
    hide GoodNode, GoodConnection, NodeProblem, ConnectionProblem, Distinct, HasType;
    var names := Names(NodesOf(j), st);
    if n :| n in NodesOf(j) && !GoodNode(n, st) {
      BadNode(n, st);
      p := if NodeProblem(NodeNotObject, n, st) then NodeNotObject
           else if NodeProblem(NodeIncomplete, n, st) then NodeIncomplete else TypeNotWhitelisted;
    } else if c :| c in ConnectionsOf(j) && !GoodConnection(c, names) {
      BadConnection(c, names);
      p := if ConnectionProblem(UnknownSource, c, names) then UnknownSource
           else if ConnectionProblem(EdgesNotList, c, names) then EdgesNotList
           else if ConnectionProblem(EdgeWithoutNode, c, names) then EdgeWithoutNode else UnknownTarget;
    } else {
      p := if !j.Obj? then RootNotObject
           else if Field(j, "nodes").None? || Field(j, "connections").None? then MissingKeys
           else if !Field(j, "nodes").value.Arr? || NodesOf(j) == [] then NodesNotNonEmptyList
           else if !Field(j, "connections").value.Obj? then ConnectionsNotObject
           else if !Distinct(names) then DuplicateNames
           else if |NodesOf(j)| < ref.minNodes then TooFewNodes else RequiredMissing;
    }
  }

  // ----- the validator --------------------------------------------------------------

  method CheckNodes(nodes: seq<Json>, st: Strings) returns (r: Result<seq<string>, Problem>)
    ensures r.Ok? <==> forall n :: n in nodes ==> GoodNode(n, st)
    ensures r.Ok? ==> r.value == Names(nodes, st)
    ensures r.Err? ==> exists n :: n in nodes && NodeProblem(r.error, n, st)
  {
    var names: seq<string> := [];
    for i := 0 to |nodes|
      invariant forall k :: 0 <= k < i ==> GoodNode(nodes[k], st)
      invariant names == Names(nodes, st)[..i]
    {
      var n := nodes[i];
      assert n in nodes;
      if !n.Obj? {
        return Err(NodeNotObject);
      }
      if Field(n, "name").None? || Field(n, "type").None? {
        return Err(NodeIncomplete);
      }
      if st.lower(st.str(Field(n, "type").value)) !in NODE_WHITELIST {
        return Err(TypeNotWhitelisted);
      }
      names := names + [st.str(Field(n, "name").value)];
    }
    r := Ok(names);
  }

  method CheckEdges(edges: seq<Json>, names: seq<string>) returns (r: Option<Problem>)
    ensures r.None? <==> forall e :: e in edges ==> GoodEdge(e, names)
    ensures r.Some? ==> exists e :: e in edges && EdgeProblem(r.value, e, names)
  {
    for i := 0 to |edges|
      invariant forall k :: 0 <= k < i ==> GoodEdge(edges[k], names)
    {
      var e := edges[i];
      assert e in edges;
      if !e.Obj? || Field(e, "node").None? {
        return Some(EdgeWithoutNode);
      }
      var dst := Field(e, "node").value;
      if !dst.Str? || dst.s !in names {
        return Some(UnknownTarget);
      }
    }
    r := None;
  }

  method CheckConnections(connections: seq<(string, Json)>, names: seq<string>) returns (r: Option<Problem>)
    ensures r.None? <==> forall c :: c in connections ==> GoodConnection(c, names)
    ensures r.Some? ==> exists c :: c in connections && ConnectionProblem(r.value, c, names)
  {
    for i := 0 to |connections|
      invariant forall k :: 0 <= k < i ==> GoodConnection(connections[k], names)
    {
      var c := connections[i];
      assert c in connections;
      if c.0 !in names {
        return Some(UnknownSource);
      }
      if !c.1.Arr? {
        return Some(EdgesNotList);
      }
      var bad := CheckEdges(c.1.items, names);
      if bad.Some? {
        return bad;
      }
    }
    r := None;
  }

  method CheckRequired(nodes: seq<Json>, required: seq<string>, st: Strings) returns (complete: bool)
    ensures complete <==> forall t :: t in required ==> HasType(nodes, st.lower(t), st)
  {
    for i := 0 to |required|
      invariant forall k :: 0 <= k < i ==> HasType(nodes, st.lower(required[k]), st)
    {
      var want := st.lower(required[i]);
      var present := exists k :: 0 <= k < |nodes| && NodeType(nodes[k], st) == want;
      assert present == HasType(nodes, want, st);
      assert required[i] in required;
      if !present {
        return false;
      }
    }
    complete := true;
  }

  /** The validator chain from the parsed value on: valid exactly for the accepted workflows. */
  method ValidateBuilderOutput(j: Json, ref: Reference, st: Strings) returns (r: Option<Problem>)
    ensures r.None? <==> Accepted(j, ref, st)
    ensures r.Some? ==> HasProblem(r.value, j, ref, st)
  {
    hide GoodNode, GoodConnection;
    if !j.Obj? {
      return Some(RootNotObject);
    }
    if Field(j, "nodes").None? || Field(j, "connections").None? {
      return Some(MissingKeys);
    }
    var nodesField, connectionsField := Field(j, "nodes").value, Field(j, "connections").value;
    if !nodesField.Arr? || nodesField.items == [] {
      return Some(NodesNotNonEmptyList);
    }
    if !connectionsField.Obj? {
      return Some(ConnectionsNotObject);
    }
    var nodes := nodesField.items;
    var checked := CheckNodes(nodes, st);
    if checked.Err? {
      return Some(checked.error);
    }
    var names := checked.value;
    var repeated := exists i, j :: 0 <= i < j < |names| && names[i] == names[j];
    if repeated {
      return Some(DuplicateNames);
    }
    var bad := CheckConnections(connectionsField.fields, names);
    if bad.Some? {
      return bad;
    }
    var complete := CheckRequired(nodes, ref.requiredNodes, st);
    if !complete {
      return Some(RequiredMissing);
    }
    if ref.minNodes != 0 && |nodes| < ref.minNodes {
      return Some(TooFewNodes);
    }
    r := None;
  }

  // ----- the structural execution check -----------------------------------------------

  /** A workflow as a graph: its nodes and, in order, its connections (source, target if any). */
  datatype Graph = Graph(nodes: set<string>, edges: seq<(string, Option<string>)>)

  /** Both ends are nodes: the edges the check uses. */
  predicate Real(g: Graph, e: (string, Option<string>)) {
    e.0 in g.nodes && e.1.Some? && e.1.value in g.nodes
  }

  predicate Edge(g: Graph, a: string, b: string) {
    Listed(g.edges, a, b) && a in g.nodes && b in g.nodes
  }

  ghost predicate IsSource(g: Graph, n: string) {
    n in g.nodes && forall m :: m in g.nodes ==> !Edge(g, m, n)
  }

  ghost predicate IsPath(g: Graph, path: seq<string>) {
    path != [] && forall i :: 0 < i < |path| ==> Edge(g, path[i - 1], path[i])
  }

  ghost predicate Reachable(g: Graph, a: string, b: string) {
    exists path :: IsPath(g, path) && path[0] == a && path[|path| - 1] == b
  }

  /** One entry point, and everything reachable from it. */
  ghost predicate SoundWorkflow(g: Graph) {
    exists trigger :: IsSource(g, trigger)
                   && (forall n :: IsSource(g, n) ==> n == trigger)
                   && (forall n :: n in g.nodes ==> Reachable(g, trigger, n))
  }

  /** A set closed under edges and holding the start holds everything reachable. */
  lemma {:induction false} ClosedHoldsReachable(g: Graph, visited: set<string>, path: seq<string>)
    requires IsPath(g, path) && path[0] in visited
    requires forall a, b :: a in visited && Edge(g, a, b) ==> b in visited
    ensures path[|path| - 1] in visited
    decreases |path|
  {
    if |path| > 1 {
      assert Edge(g, path[0], path[1]);
      forall i | 0 < i < |path[1..]|
        ensures Edge(g, path[1..][i - 1], path[1..][i])
      {
        assert Edge(g, path[i], path[i + 1]);
      }
      ClosedHoldsReachable(g, visited, path[1..]);
    }
  }

  lemma ReachableStep(g: Graph, a: string, b: string, c: string)
    requires Reachable(g, a, b) && Edge(g, b, c)
    ensures Reachable(g, a, c)
  {
    var path :| IsPath(g, path) && path[0] == a && path[|path| - 1] == b;
    var longer := path + [c];
    assert IsPath(g, longer);
    assert longer[0] == a && longer[|longer| - 1] == c;
  }

  lemma ReachableSelf(g: Graph, a: string)
    ensures Reachable(g, a, a)
  {
    assert IsPath(g, [a]);
  }

  type Edges = seq<(string, Option<string>)>

  predicate Listed(edges: Edges, a: string, b: string) {
    (a, Some(b)) in edges
  }

  ghost predicate OutMap(nodes: set<string>, edges: Edges, out: map<string, seq<string>>) {
    && out.Keys == nodes
    && forall a, b :: a in nodes ==> (b in out[a] <==> Listed(edges, a, b) && b in nodes)
  }

  ghost predicate InMap(nodes: set<string>, edges: Edges, into: map<string, seq<string>>) {
    && into.Keys == nodes
    && forall a, b :: b in nodes ==> (a in into[b] <==> Listed(edges, a, b) && a in nodes)
  }

  lemma KeptEdge(nodes: set<string>, edges: Edges, out: map<string, seq<string>>, into: map<string, seq<string>>,
                 src: string, dst: string)
    requires OutMap(nodes, edges, out) && InMap(nodes, edges, into) && src in nodes && dst in nodes
    ensures OutMap(nodes, edges + [(src, Some(dst))], out[src := out[src] + [dst]])
    ensures InMap(nodes, edges + [(src, Some(dst))], into[dst := into[dst] + [src]])
  {
    var more := edges + [(src, Some(dst))];
    assert forall a, b :: Listed(more, a, b) <==> Listed(edges, a, b) || (a == src && b == dst);
  }

  lemma DroppedEdge(nodes: set<string>, edges: Edges, out: map<string, seq<string>>, into: map<string, seq<string>>,
                    e: (string, Option<string>))
    requires OutMap(nodes, edges, out) && InMap(nodes, edges, into)
    requires e.0 !in nodes || e.1.None? || e.1.value !in nodes
    ensures OutMap(nodes, edges + [e], out) && InMap(nodes, edges + [e], into)
  {
    assert forall a, b :: Listed(edges + [e], a, b) <==> Listed(edges, a, b) || (a, Some(b)) == e;
  }

  /** Fill the outgoing and incoming maps, dropping edges that touch no node. */
  method BuildMaps(g: Graph) returns (out: map<string, seq<string>>, into: map<string, seq<string>>)
    ensures OutMap(g.nodes, g.edges, out) && InMap(g.nodes, g.edges, into)
  {
    out, into := map n | n in g.nodes :: [], map n | n in g.nodes :: [];
    for k := 0 to |g.edges|
      invariant OutMap(g.nodes, g.edges[..k], out) && InMap(g.nodes, g.edges[..k], into)
    {
      hide Listed;
      var e := g.edges[k];
      assert g.edges[..k + 1] == g.edges[..k] + [e];
      if e.1.Some? && e.1.value in g.nodes && e.0 in g.nodes {
        var dst := e.1.value;
        KeptEdge(g.nodes, g.edges[..k], out, into, e.0, dst);
        out := out[e.0 := out[e.0] + [dst]];
        into := into[dst := into[dst] + [e.0]];
      } else {
        DroppedEdge(g.nodes, g.edges[..k], out, into, e);
      }
    }
    assert g.edges[..|g.edges|] == g.edges;
  }

  /** The stack walk: it may push a node many times, but visits each once. */
  method Visit(g: Graph, out: map<string, seq<string>>, trigger: string) returns (visited: set<string>)
    requires OutMap(g.nodes, g.edges, out) && trigger in g.nodes
    ensures visited <= g.nodes
    ensures forall n :: n in g.nodes ==> (n in visited <==> Reachable(g, trigger, n))
  {
    assert forall a, b :: a in g.nodes ==> (b in out[a] <==> Edge(g, a, b));
    visited := {};
    var queue := [trigger];
    ReachableSelf(g, trigger);
    while queue != []
      invariant visited <= g.nodes && forall n :: n in queue ==> n in g.nodes
      invariant forall n :: n in visited || n in queue ==> Reachable(g, trigger, n)
      invariant trigger in visited || trigger in queue
      invariant forall a, b :: a in visited && Edge(g, a, b) ==> b in visited || b in queue
      decreases g.nodes - visited, |queue|
    {
      var cur := queue[|queue| - 1];
      ghost var before := queue;
      queue := queue[..|queue| - 1];
      assert forall n :: n in before <==> n in queue || n == cur;
      if cur in visited {
        continue;
      }
      visited := visited + {cur};
      forall b | b in out[cur]
        ensures b in g.nodes && Reachable(g, trigger, b)
      {
        ReachableStep(g, trigger, cur, b);
      }
      queue := queue + out[cur];
    }
    forall n | n in g.nodes && Reachable(g, trigger, n)
      ensures n in visited
    {
      var path :| IsPath(g, path) && path[0] == trigger && path[|path| - 1] == n;
      ClosedHoldsReachable(g, visited, path);
    }
  }

  /** True exactly for a workflow with a single entry point from which every node is reachable. */
  method StructuralExecSim(g: Graph) returns (ok: bool)
    ensures ok <==> SoundWorkflow(g)
  {
    if g.nodes == {} {
      return false;
    }
    var out, into := BuildMaps(g);
    var sources := set n | n in g.nodes && into[n] == [];
    forall n
      ensures n in sources <==> IsSource(g, n)
    {
      SourceTest(g, into, n);
    }
    SoundHasOneSource(g, sources);
    if |sources| != 1 {
      return false;
    }
    var trigger :| trigger in sources;
    OnlyElement(sources, trigger);
    var visited := Visit(g, out, trigger);
    ok := visited == g.nodes;
  }

  lemma SoundHasOneSource(g: Graph, sources: set<string>)
    requires forall n :: n in sources <==> IsSource(g, n)
    ensures SoundWorkflow(g) ==> |sources| == 1
  {
    if SoundWorkflow(g) {
      var t :| IsSource(g, t) && forall n :: IsSource(g, n) ==> n == t;
      assert sources == {t};
    }
  }

  lemma SourceTest(g: Graph, into: map<string, seq<string>>, n: string)
    requires InMap(g.nodes, g.edges, into)
    ensures n in g.nodes && into[n] == [] <==> IsSource(g, n)
  {
    if n in g.nodes && into[n] != [] {
      var a := into[n][0];
      assert a in into[n];
      assert Edge(g, a, n);
    }
  }

  lemma OnlyElement<T>(s: set<T>, x: T)
    requires |s| == 1 && x in s
    ensures s == {x}
  {
    assert |s - {x}| == 0;
  }

  // ----- accepted workflows lose no edge ------------------------------------------------

  function EdgesFrom(src: string, items: seq<Json>): seq<(string, Option<string>)> {
    if items == [] then []
    else
      [(src, match Field(items[0], "node") case Some(Str(dst)) => Some(dst) case _ => None)]
      + EdgesFrom(src, items[1..])
  }

  function EdgesOf(connections: seq<(string, Json)>): seq<(string, Option<string>)> {
    if connections == [] then []
    else (if connections[0].1.Arr? then EdgesFrom(connections[0].0, connections[0].1.items) else [])
         + EdgesOf(connections[1..])
  }

  function NameSet(names: seq<string>): set<string> {
    set n | n in names
  }

  /** The graph of a parsed workflow. */
  function GraphOf(j: Json, st: Strings): Graph {
    Graph(NameSet(Names(NodesOf(j), st)), EdgesOf(ConnectionsOf(j)))
  }

  /** The workflow connects `a` to `b`: under the key `a` it lists an object whose `node` is `b`. */
  ghost predicate Written(connections: seq<(string, Json)>, a: string, b: string) {
    exists c, e :: c in connections && c.0 == a && c.1.Arr? && e in c.1.items && LeadsTo(e, b)
  }

  predicate LeadsTo(e: Json, b: string) {
    Field(e, "node") == Some(Str(b))
  }

  lemma {:induction false} EdgesFromWritten(src: string, items: seq<Json>, a: string, b: string)
    ensures (a, Some(b)) in EdgesFrom(src, items) <==> a == src && exists e :: e in items && LeadsTo(e, b)
  {
    if items != [] {
      EdgesFromWritten(src, items[1..], a, b);
      var first := EdgesFrom(src, items)[0];
      assert first == (a, Some(b)) <==> a == src && LeadsTo(items[0], b);
      assert EdgesFrom(src, items) == [first] + EdgesFrom(src, items[1..]);
      assert items == [items[0]] + items[1..];
    }
  }

  lemma {:induction false} EdgesOfWritten(connections: seq<(string, Json)>, a: string, b: string)
    ensures (a, Some(b)) in EdgesOf(connections) <==> Written(connections, a, b)
  {
    if connections != [] {
      hide LeadsTo;
      var first, rest := connections[0], connections[1..];
      EdgesOfWritten(rest, a, b);
      assert connections == [first] + rest;
      if first.1.Arr? {
        EdgesFromWritten(first.0, first.1.items, a, b);
      }
    }
  }

  /** The graph is the workflow's: a node for every name, an edge for every connection, and no more. */
  lemma GraphIsWritten(j: Json, st: Strings, a: string, b: string)
    ensures a in GraphOf(j, st).nodes <==> exists n :: n in NodesOf(j) && NodeName(n, st) == a
    ensures Listed(GraphOf(j, st).edges, a, b) <==> Written(ConnectionsOf(j), a, b)
  {
    EdgesOfWritten(ConnectionsOf(j), a, b);
    var nodes := NodesOf(j);
    if n :| n in nodes && NodeName(n, st) == a {
      var i :| 0 <= i < |nodes| && nodes[i] == n;
      assert Names(nodes, st)[i] == a;
    }
  }

  lemma {:induction false} EdgesFromReal(g: Graph, src: string, items: seq<Json>, names: seq<string>)
    requires g.nodes == NameSet(names) && src in names && forall e :: e in items ==> GoodEdge(e, names)
    ensures |EdgesFrom(src, items)| == |items| && forall e :: e in EdgesFrom(src, items) ==> Real(g, e)
  {
    if items != [] {
      assert GoodEdge(items[0], names);
      EdgesFromReal(g, src, items[1..], names);
    }
  }

  lemma {:induction false} EdgesOfReal(g: Graph, connections: seq<(string, Json)>, names: seq<string>)
    requires g.nodes == NameSet(names) && forall c :: c in connections ==> GoodConnection(c, names)
    ensures forall e :: e in EdgesOf(connections) ==> Real(g, e)
  {
    if connections != [] {
      assert GoodConnection(connections[0], names);
      EdgesFromReal(g, connections[0].0, connections[0].1.items, names);
      EdgesOfReal(g, connections[1..], names);
    }
  }

  /** Both scores of one completion: valid, and of valid ones, structurally executable. */
  method Score(j: Json, ref: Reference, st: Strings) returns (valid: bool, executes: bool)
    ensures valid <==> Accepted(j, ref, st)
    ensures executes <==> Accepted(j, ref, st) && SoundWorkflow(GraphOf(j, st))
  {
    hide Accepted, SoundWorkflow, GraphOf;
    var problem := ValidateBuilderOutput(j, ref, st);
    valid := problem.None?;
    executes := false;
    if valid {
      executes := StructuralExecSim(GraphOf(j, st));
    }
  }

  /** For a workflow the validator accepted, the edge guard of the execution check drops nothing. */
  lemma AcceptedKeepsEdges(j: Json, ref: Reference, st: Strings)
    requires Accepted(j, ref, st)
    ensures GraphOf(j, st).nodes != {} && forall e :: e in GraphOf(j, st).edges ==> Real(GraphOf(j, st), e)
  {
    var names := Names(NodesOf(j), st);
    EdgesOfReal(GraphOf(j, st), ConnectionsOf(j), names);
    assert names[0] in NameSet(names);
  }
}
