/** The manifest dependency graph: built by calls, serialised to a canonical
    document, hashed without its generation time, and read back. */
module ManifestGraph {
  import opened Wrappers
  import opened Order

  // ---- the graph

  datatype GraphNode = GraphNode(name: string, kinds: set<string>, namespaces: set<string>, sourcePaths: set<string>)

  datatype GraphEdge = GraphEdge(source: string, target: string, relationship: string, sourcePath: string,
                                 evidence: string)

  function EdgeKey(e: GraphEdge): seq<string> {
    [e.source, e.target, e.relationship, e.sourcePath, e.evidence]
  }

  predicate EdgeLess(a: GraphEdge, b: GraphEdge) {
    TupleLess(EdgeKey(a), EdgeKey(b))
  }

  lemma EdgeLessIsStrictTotal()
    ensures StrictTotal(EdgeLess)
  {
    TupleLessIsStrictTotal();
    forall a, b | a != b ensures EdgeLess(a, b) || EdgeLess(b, a) {
      assert EdgeKey(a)[0] == a.source && EdgeKey(b)[0] == b.source;
      assert EdgeKey(a)[1] == a.target && EdgeKey(b)[1] == b.target;
      assert EdgeKey(a)[2] == a.relationship && EdgeKey(b)[2] == b.relationship;
      assert EdgeKey(a)[3] == a.sourcePath && EdgeKey(b)[3] == b.sourcePath;
      assert EdgeKey(a)[4] == a.evidence && EdgeKey(b)[4] == b.evidence;
    }
  }

  /** The value of a graph: its nodes by name and its edges in insertion order. */
  datatype Graph = Graph(nodes: map<string, GraphNode>, edges: seq<GraphEdge>) {

    /** Nodes are filed under their names; edges are neither repeated nor loops. */
    ghost predicate Valid() {
      && (forall n :: n in nodes ==> nodes[n].name == n)
      && Distinct(edges)
      && (forall e :: e in edges ==> e.source != e.target)
    }
  }

  const NO_GRAPH := Graph(map[], [])

  /** The name normaliser and the lower-casing of kinds, both arbitrary functions. */
  datatype Text = Text(normalize: string -> string, lower: string -> string)

  // ---- the calls that build it

  datatype BuildCall =
    | AddNode(name: string, kind: string, namespace: Option<string>, nodePath: string)
    | AddEdge(source: string, target: string, relationship: string, edgePath: string, evidence: string)

  /** The contribution of an AddNode call to its node. */
  function NodeOf(text: Text, call: BuildCall): GraphNode
    requires call.AddNode?
  {
    GraphNode(text.normalize(call.name), {text.lower(call.kind)},
              if Truthy(call.namespace) then {call.namespace.value} else {}, {call.nodePath})
  }

  function EdgeOf(text: Text, call: BuildCall): GraphEdge
    requires call.AddEdge?
  {
    GraphEdge(text.normalize(call.source), text.normalize(call.target), call.relationship, call.edgePath, call.evidence)
  }

  /** The call touches a node: its name is not blank. */
  predicate Names(text: Text, call: BuildCall, name: string) {
    call.AddNode? && text.normalize(call.name) == name && name != ""
  }

  /** The call states this edge, from its source to its target, both named and different. */
  predicate States(text: Text, call: BuildCall, e: GraphEdge) {
    && call.AddEdge?
    && e.source == text.normalize(call.source) && e.target == text.normalize(call.target)
    && e.relationship == call.relationship && e.sourcePath == call.edgePath && e.evidence == call.evidence
    && e.source != "" && e.target != "" && e.source != e.target
  }

  function Merge(a: GraphNode, b: GraphNode): GraphNode {
    GraphNode(a.name, a.kinds + b.kinds, a.namespaces + b.namespaces, a.sourcePaths + b.sourcePaths)
  }

  function Apply(text: Text, g: Graph, call: BuildCall): Graph {
    match call
    case AddNode(name, _, _, _) =>
      var n := text.normalize(name);
      if n == "" then g
      else g.(nodes := g.nodes[n := Merge(Lookup(g.nodes, n, GraphNode(n, {}, {}, {})), NodeOf(text, call))])
    case AddEdge(_, _, _, _, _) =>
      var e := EdgeOf(text, call);
      if e.source == "" || e.target == "" || e.source == e.target || e in g.edges then g
      else g.(edges := g.edges + [e])
  }

  /** The graph after a sequence of calls on an empty graph. */
  function Build(text: Text, calls: seq<BuildCall>): Graph {
    if calls == [] then NO_GRAPH else Apply(text, Build(text, calls[..|calls| - 1]), calls[|calls| - 1])
  }

  // ---- the graph object

  class ManifestDependencyGraph {
    const text: Text
    const sourceType: string
    const generatedAt: int
    var nodes: map<string, GraphNode>
    var edges: seq<GraphEdge>

    constructor (text: Text, sourceType: string, generatedAt: int)
      ensures this.text == text && this.sourceType == sourceType && this.generatedAt == generatedAt
      ensures Value() == NO_GRAPH
    {
      this.text, this.sourceType, this.generatedAt := text, sourceType, generatedAt;
      nodes, edges := map[], [];
    }

    function Value(): Graph
      reads this
    {
      Graph(nodes, edges)
    }

    method AddNode(name: string, kind: string, namespace: Option<string>, sourcePath: string)
      modifies this`nodes
      ensures Value() == Apply(text, old(Value()), BuildCall.AddNode(name, kind, namespace, sourcePath))
      ensures forall n :: n in nodes <==> n in old(nodes) || (n == text.normalize(name) && n != "")
      ensures forall n :: n in old(nodes) && n != text.normalize(name) ==> nodes[n] == old(nodes)[n]
      ensures text.normalize(name) in nodes && text.normalize(name) != "" ==>
                var n := text.normalize(name);
                var before := Lookup(old(nodes), n, GraphNode(n, {}, {}, {}));
                && nodes[n].name == before.name
                && nodes[n].kinds == before.kinds + {text.lower(kind)}
                && nodes[n].namespaces == before.namespaces + (if Truthy(namespace) then {namespace.value} else {})
                && nodes[n].sourcePaths == before.sourcePaths + {sourcePath}
    {
      var normalized := text.normalize(name);
      if normalized == "" {
        return;
      }
      var node := if normalized in nodes then nodes[normalized] else GraphNode(normalized, {}, {}, {});
      node := node.(kinds := node.kinds + {text.lower(kind)});
      if Truthy(namespace) {
        node := node.(namespaces := node.namespaces + {namespace.value});
      }
      node := node.(sourcePaths := node.sourcePaths + {sourcePath});
      ghost var before := Lookup(nodes, normalized, GraphNode(normalized, {}, {}, {}));
      ghost var own := NodeOf(text, BuildCall.AddNode(name, kind, namespace, sourcePath));
      assert node.namespaces == before.namespaces + own.namespaces;
      assert node == Merge(before, own);
      nodes := nodes[normalized := node];
    }

    method AddEdge(source: string, target: string, relationship: string, sourcePath: string, evidence: string)
      modifies this`edges
      ensures Value()
              == Apply(text, old(Value()), BuildCall.AddEdge(source, target, relationship, sourcePath, evidence))
      ensures old(edges) <= edges && |edges| <= |old(edges)| + 1
      ensures forall e :: e in edges
                <==> || e in old(edges)
                     || (&& e.source == text.normalize(source) && e.target == text.normalize(target)
                         && e.relationship == relationship && e.sourcePath == sourcePath && e.evidence == evidence
                         && e.source != "" && e.target != "" && e.source != e.target)
    {
      var sourceName, targetName := text.normalize(source), text.normalize(target);
      if sourceName == "" || targetName == "" || sourceName == targetName {
        return;
      }
      var candidate := GraphEdge(sourceName, targetName, relationship, sourcePath, evidence);
      if candidate !in edges {
        edges := edges + [candidate];
      }
    }

    /** Edges leaving a service, in insertion order. */
    method DependenciesFor(service: string) returns (leaving: seq<GraphEdge>)
      ensures leaving == Leaving(edges, text.normalize(service))
    {
      leaving := [];
      var source := text.normalize(service);
      for i := 0 to |edges|
        invariant leaving == Leaving(edges[..i], source)
      {
        assert edges[..i + 1][..i] == edges[..i];
        if edges[i].source == source {
          leaving := leaving + [edges[i]];
        }
      }
      assert edges[..|edges|] == edges;
    }

    /** Fill an empty graph from a document. */
    method Restore(document: GraphDocument)
      requires Value() == NO_GRAPH
      modifies this`nodes, this`edges
      ensures Value() == FromDict(document)
    {
      for i := 0 to |document.nodes|
        invariant Graph(nodes, edges) == Graph(NodesFrom(document.nodes[..i]), [])
      {
        assert document.nodes[..i + 1][..i] == document.nodes[..i];
        nodes := nodes[document.nodes[i].name := NodeFrom(document.nodes[i])];
      }
      assert document.nodes[..|document.nodes|] == document.nodes;
      for i := 0 to |document.edges|
        invariant Graph(nodes, edges) == Graph(NodesFrom(document.nodes), document.edges[..i])
      {
        assert document.edges[..i + 1] == document.edges[..i] + [document.edges[i]];
        edges := edges + [document.edges[i]];
      }
      assert document.edges[..|document.edges|] == document.edges;
    }
  }

  function Leaving(edges: seq<GraphEdge>, source: string): seq<GraphEdge> {
    if edges == [] then []
    else
      var front, last := edges[..|edges| - 1], edges[|edges| - 1];
      Leaving(front, source) + if last.source == source then [last] else []
  }

  lemma {:induction false} LeavingMembers(edges: seq<GraphEdge>, source: string)
    ensures forall e :: e in Leaving(edges, source) <==> e in edges && e.source == source
  {
    if edges != [] {
      var front, last := edges[..|edges| - 1], edges[|edges| - 1];
      LeavingMembers(front, source);
      assert forall e :: e in edges <==> e in front || e == last;
    }
  }

  /** Read after a run of calls, the dependencies of a service are exactly the
      edges some call stated with that source, each listed once, none reversed. */
  lemma DependenciesAreStated(text: Text, calls: seq<BuildCall>, source: string)
    ensures var leaving := Leaving(Build(text, calls).edges, source);
            && (forall e :: e in leaving <==> e.source == source && exists c :: c in calls && States(text, c, e))
            && Distinct(leaving)
  {
    BuildGathers(text, calls);
    LeavingMembers(Build(text, calls).edges, source);
    LeavingDistinct(Build(text, calls).edges, source);
  }

  /** They come in insertion order: those among earlier edges before those among later. */
  lemma {:induction false} LeavingInOrder(a: seq<GraphEdge>, b: seq<GraphEdge>, source: string)
    ensures Leaving(a + b, source) == Leaving(a, source) + Leaving(b, source)
  {
    if b == [] {
      assert a + b == a;
    } else {
      var front, last := b[..|b| - 1], b[|b| - 1];
      LeavingInOrder(a, front, source);
      assert (a + b)[..|a + b| - 1] == a + front;
    }
  }

  lemma {:induction false} LeavingDistinct(edges: seq<GraphEdge>, source: string)
    requires Distinct(edges)
    ensures Distinct(Leaving(edges, source))
  {
    if edges != [] {
      var front, last := edges[..|edges| - 1], edges[|edges| - 1];
      LeavingDistinct(front, source);
      LeavingMembers(front, source);
      assert last !in front;
    }
  }

  // ---- the document

  datatype NodeEntry = NodeEntry(name: string, kinds: seq<string>, namespaces: seq<string>, sourcePaths: seq<string>)

  /** `to_dict` without its `generated_at` entry: what the digest is taken of. */
  datatype GraphDocument = GraphDocument(sourceType: string, nodes: seq<NodeEntry>, edges: seq<GraphEdge>)

  ghost function Entry(node: GraphNode): NodeEntry {
    NodeEntry(node.name, SortSet(node.kinds, StringLess), SortSet(node.namespaces, StringLess),
              SortSet(node.sourcePaths, StringLess))
  }

  ghost function Entries(nodes: map<string, GraphNode>, names: seq<string>): seq<NodeEntry>
    requires forall n :: n in names ==> n in nodes
  {
    seq(|names|, i requires 0 <= i < |names| => assert names[i] in names; Entry(nodes[names[i]]))
  }

  ghost function ToDict(g: Graph, sourceType: string): GraphDocument {
    NamesSorted(g.nodes);
    GraphDocument(sourceType, Entries(g.nodes, SortSet(g.nodes.Keys, StringLess)), Sort(g.edges, EdgeLess))
  }

  /** The digest: a hash of the document without its generation time. */
  ghost function Digest(hash: GraphDocument -> string, g: Graph, sourceType: string): string {
    hash(ToDict(g, sourceType))
  }

  function Elements(s: seq<string>): set<string> {
    set x | x in s
  }

  function NodeFrom(entry: NodeEntry): GraphNode {
    GraphNode(entry.name, Elements(entry.kinds), Elements(entry.namespaces), Elements(entry.sourcePaths))
  }

  function NodesFrom(entries: seq<NodeEntry>): map<string, GraphNode> {
    if entries == [] then map[]
    else NodesFrom(entries[..|entries| - 1])[entries[|entries| - 1].name := NodeFrom(entries[|entries| - 1])]
  }

  function FromDict(document: GraphDocument): Graph {
    Graph(NodesFrom(document.nodes), document.edges)
  }

  lemma TupleStep(x: string, y: string, s: seq<string>, t: seq<string>)
    ensures TupleLess([x] + s, [y] + t) <==> StringLess(x, y) || (x == y && TupleLess(s, t))
  {
    assert ([x] + s)[1..] == s && ([y] + t)[1..] == t;
  }

  /** Edges compare by source, then target, relationship, path and evidence. */
  lemma EdgeLessIff(a: GraphEdge, b: GraphEdge)
    ensures EdgeLess(a, b)
            <==> || StringLess(a.source, b.source)
                 || (a.source == b.source
                     && (|| StringLess(a.target, b.target)
                         || (a.target == b.target
                             && (|| StringLess(a.relationship, b.relationship)
                                 || (a.relationship == b.relationship
                                     && (|| StringLess(a.sourcePath, b.sourcePath)
                                         || (a.sourcePath == b.sourcePath && StringLess(a.evidence, b.evidence))))))))
  {
    TupleStep(a.source, b.source, [a.target, a.relationship, a.sourcePath, a.evidence],
              [b.target, b.relationship, b.sourcePath, b.evidence]);
    TupleStep(a.target, b.target, [a.relationship, a.sourcePath, a.evidence],
              [b.relationship, b.sourcePath, b.evidence]);
    TupleStep(a.relationship, b.relationship, [a.sourcePath, a.evidence], [b.sourcePath, b.evidence]);
    TupleStep(a.sourcePath, b.sourcePath, [a.evidence], [b.evidence]);
    TupleStep(a.evidence, b.evidence, [], []);
    KeyTails(a);
    KeyTails(b);
  }

  lemma KeyTails(e: GraphEdge)
    ensures EdgeKey(e) == [e.source] + [e.target, e.relationship, e.sourcePath, e.evidence]
    ensures [e.target, e.relationship, e.sourcePath, e.evidence]
            == [e.target] + [e.relationship, e.sourcePath, e.evidence]
    ensures [e.relationship, e.sourcePath, e.evidence] == [e.relationship] + [e.sourcePath, e.evidence]
    ensures [e.sourcePath, e.evidence] == [e.sourcePath] + [e.evidence]
    ensures [e.evidence] == [e.evidence] + []
  {
  }

  /** The document lists its nodes by name, each with its sets in order, and its edges
      in the edge order. */
  lemma DocumentIsSorted(g: Graph, sourceType: string)
    requires forall n :: n in g.nodes ==> g.nodes[n].name == n
    ensures var document := ToDict(g, sourceType);
            && document.sourceType == sourceType
            && (forall i, j :: 0 <= i < j < |document.nodes| ==>
                  !StringLess(document.nodes[j].name, document.nodes[i].name))
            && (forall i :: 0 <= i < |document.nodes| ==>
                  && Sorted(document.nodes[i].kinds, StringLess) && Sorted(document.nodes[i].namespaces, StringLess)
                  && Sorted(document.nodes[i].sourcePaths, StringLess))
            && (forall i, j :: 0 <= i < j < |document.edges| ==> !EdgeLess(document.edges[j], document.edges[i]))
  {
    StringLessIsStrictTotal();
    EdgeLessIsStrictTotal();
    SortCorrect(g.edges, EdgeLess);
    SortSetCorrect(g.nodes.Keys, StringLess);
    var names, document := SortSet(g.nodes.Keys, StringLess), ToDict(g, sourceType);
    forall i | 0 <= i < |document.nodes|
      ensures document.nodes[i].name == names[i]
      ensures Sorted(document.nodes[i].kinds, StringLess) && Sorted(document.nodes[i].namespaces, StringLess)
      ensures Sorted(document.nodes[i].sourcePaths, StringLess)
    {
      assert names[i] in names;
      EntryIsSorted(g.nodes[names[i]]);
    }
  }

  lemma EntryIsSorted(node: GraphNode)
    ensures Sorted(Entry(node).kinds, StringLess) && Sorted(Entry(node).namespaces, StringLess)
    ensures Sorted(Entry(node).sourcePaths, StringLess)
  {
    StringLessIsStrictTotal();
    SortSetCorrect(node.kinds, StringLess);
    SortSetCorrect(node.namespaces, StringLess);
    SortSetCorrect(node.sourcePaths, StringLess);
  }

  // ---- what calls build

  /** A node carries exactly the kinds, namespaces and paths its calls gave it. */
  ghost predicate NodeGathers(text: Text, calls: seq<BuildCall>, node: GraphNode, name: string) {
    && node.name == name
    && (forall k :: k in node.kinds <==> exists c :: c in calls && Names(text, c, name) && k == text.lower(c.kind))
    && (forall s :: s in node.namespaces
          <==> exists c :: c in calls && Names(text, c, name) && Truthy(c.namespace) && s == c.namespace.value)
    && (forall p :: p in node.sourcePaths <==> exists c :: c in calls && Names(text, c, name) && p == c.nodePath)
  }

  /** The meaning of a built graph, in terms of which calls were made only. */
  ghost predicate Gathers(text: Text, calls: seq<BuildCall>, g: Graph) {
    && (forall n :: n in g.nodes <==> exists c :: c in calls && Names(text, c, n))
    && (forall n :: n in g.nodes ==> NodeGathers(text, calls, g.nodes[n], n))
    && (forall e :: e in g.edges <==> exists c :: c in calls && States(text, c, e))
  }

  lemma NodeGathersMore(text: Text, calls: seq<BuildCall>, call: BuildCall, node: GraphNode, name: string)
    requires NodeGathers(text, calls, node, name) && !Names(text, call, name)
    ensures NodeGathers(text, calls + [call], node, name)
  {
    assert forall c :: c in calls + [call] <==> c in calls || c == call;
  }

  lemma NodeGathersOwn(text: Text, calls: seq<BuildCall>, call: BuildCall, node: GraphNode, name: string)
    requires NodeGathers(text, calls, node, name) && Names(text, call, name)
    ensures NodeGathers(text, calls + [call], Merge(node, NodeOf(text, call)), name)
  {
    assert forall c :: c in calls + [call] <==> c in calls || c == call;
  }

  lemma {:induction false} BuildGathers(text: Text, calls: seq<BuildCall>)
    ensures Gathers(text, calls, Build(text, calls))
    ensures Build(text, calls).Valid()
  {
    if calls != [] {
      var front, call := calls[..|calls| - 1], calls[|calls| - 1];
      BuildGathers(text, front);
      assert calls == front + [call];
      if call.AddNode? {
        AddNodeGathers(text, front, call, Build(text, front));
      } else {
        AddEdgeGathers(text, front, call, Build(text, front));
      }
    }
  }

  lemma AddNodeGathers(text: Text, calls: seq<BuildCall>, call: BuildCall, g: Graph)
    requires call.AddNode? && Gathers(text, calls, g) && g.Valid()
    ensures Gathers(text, calls + [call], Apply(text, g, call)) && Apply(text, g, call).Valid()
  {
    var g', all := Apply(text, g, call), calls + [call];
    var name := text.normalize(call.name);
    assert forall c :: c in all <==> c in calls || c == call;
    forall n | n in g'.nodes ensures NodeGathers(text, all, g'.nodes[n], n) {
      if n == name {
        var before := Lookup(g.nodes, n, GraphNode(n, {}, {}, {}));
        assert NodeGathers(text, calls, before, n);
        NodeGathersOwn(text, calls, call, before, n);
      } else {
        NodeGathersMore(text, calls, call, g.nodes[n], n);
      }
    }
    forall n ensures n in g'.nodes <==> exists c :: c in all && Names(text, c, n) {
      if n in g'.nodes && n == name {
        assert Names(text, call, n);
      }
    }
    assert forall e :: !States(text, call, e);
  }

  lemma AddEdgeGathers(text: Text, calls: seq<BuildCall>, call: BuildCall, g: Graph)
    requires call.AddEdge? && Gathers(text, calls, g) && g.Valid()
    ensures Gathers(text, calls + [call], Apply(text, g, call)) && Apply(text, g, call).Valid()
  {
    var g', all := Apply(text, g, call), calls + [call];
    assert forall c :: c in all <==> c in calls || c == call;
    forall n | n in g.nodes ensures NodeGathers(text, all, g.nodes[n], n) {
      NodeGathersMore(text, calls, call, g.nodes[n], n);
    }
    forall e ensures e in g'.edges <==> exists c :: c in all && States(text, c, e) {
      if States(text, call, e) {
        assert call in all;
      }
    }
    assert forall n :: !Names(text, call, n);
  }

  // ---- canonical form

  lemma SameGathering(text: Text, a: seq<BuildCall>, b: seq<BuildCall>, g: Graph, h: Graph)
    requires forall c :: c in a <==> c in b
    requires Gathers(text, a, g) && Gathers(text, b, h)
    ensures g.nodes == h.nodes
    ensures forall e :: e in g.edges <==> e in h.edges
  {
    forall n ensures n in g.nodes <==> n in h.nodes {
      assert n in g.nodes <==> exists c :: c in a && Names(text, c, n);
      assert n in h.nodes <==> exists c :: c in b && Names(text, c, n);
    }
    forall n | n in g.nodes ensures g.nodes[n] == h.nodes[n] {
      SameNode(text, a, b, g.nodes[n], h.nodes[n], n);
    }
  }

  lemma SameNode(text: Text, a: seq<BuildCall>, b: seq<BuildCall>, x: GraphNode, y: GraphNode, name: string)
    requires forall c :: c in a <==> c in b
    requires NodeGathers(text, a, x, name) && NodeGathers(text, b, y, name)
    ensures x == y
  {
    assert x.kinds == y.kinds;
    assert x.namespaces == y.namespaces;
    assert x.sourcePaths == y.sourcePaths;
  }

  /** Canonical form: the same calls, in any order and with any repetitions,
      give the same document, and so the same digest. */
  lemma CallOrderIsIrrelevant(text: Text, a: seq<BuildCall>, b: seq<BuildCall>, sourceType: string,
                              hash: GraphDocument -> string)
    requires forall c :: c in a <==> c in b
    ensures ToDict(Build(text, a), sourceType) == ToDict(Build(text, b), sourceType)
    ensures Digest(hash, Build(text, a), sourceType) == Digest(hash, Build(text, b), sourceType)
  {
    BuildGathers(text, a);
    BuildGathers(text, b);
    SameGathering(text, a, b, Build(text, a), Build(text, b));
    EdgeLessIsStrictTotal();
    SortSameElements(Build(text, a).edges, Build(text, b).edges, EdgeLess);
  }

  /** No graph built by these calls has a self edge or a duplicate edge. */
  lemma {:induction false} BuiltGraphsAreClean(text: Text, calls: seq<BuildCall>)
    ensures var g := Build(text, calls);
            && Distinct(g.edges)
            && (forall e :: e in g.edges ==> e.source != e.target && e.source != "" && e.target != "")
            && (forall n :: n in g.nodes ==> g.nodes[n].name == n != "")
  {
    BuildGathers(text, calls);
  }

  // ---- round trip

  lemma EntryRoundTrip(node: GraphNode)
    ensures NodeFrom(Entry(node)) == node
  {
    StringLessIsStrictTotal();
    SortSetCorrect(node.kinds, StringLess);
    SortSetCorrect(node.namespaces, StringLess);
    SortSetCorrect(node.sourcePaths, StringLess);
  }

  lemma {:induction false} EntriesRoundTrip(nodes: map<string, GraphNode>, names: seq<string>)
    requires forall n :: n in names ==> n in nodes && nodes[n].name == n
    ensures NodesFrom(Entries(nodes, names)) == map n | n in names :: nodes[n]
  {
    if names != [] {
      var front, last := names[..|names| - 1], names[|names| - 1];
      assert forall n :: n in names <==> n in front || n == last;
      EntriesRoundTrip(nodes, front);
      EntryRoundTrip(nodes[last]);
      EntriesSplit(nodes, names);
    }
  }

  lemma EntriesSplit(nodes: map<string, GraphNode>, names: seq<string>)
    requires names != [] && forall n :: n in names ==> n in nodes
    ensures var front, last := names[..|names| - 1], names[|names| - 1];
            && last in names && (forall n :: n in front ==> n in names)
            && Entries(nodes, names)[..|names| - 1] == Entries(nodes, front)
            && Entries(nodes, names)[|names| - 1] == Entry(nodes[last])
  {
  }

  lemma EdgesSorted(edges: seq<GraphEdge>)
    ensures multiset(Sort(edges, EdgeLess)) == multiset(edges)
    ensures Sort(Sort(edges, EdgeLess), EdgeLess) == Sort(edges, EdgeLess)
  {
    EdgeLessIsStrictTotal();
    SortCorrect(edges, EdgeLess);
    SortCorrect(Sort(edges, EdgeLess), EdgeLess);
    SortedUnique(Sort(Sort(edges, EdgeLess), EdgeLess), Sort(edges, EdgeLess), EdgeLess);
  }

  lemma NamesSorted(nodes: map<string, GraphNode>)
    ensures forall n :: n in SortSet(nodes.Keys, StringLess) <==> n in nodes
  {
    StringLessIsStrictTotal();
    SortSetCorrect(nodes.Keys, StringLess);
  }

  /** Reading a document back gives a graph with the same nodes, the same edges
      in canonical order, and therefore the same document and digest. */
  lemma RoundTrip(g: Graph, sourceType: string, hash: GraphDocument -> string)
    requires forall n :: n in g.nodes ==> g.nodes[n].name == n
    ensures var back := FromDict(ToDict(g, sourceType));
            && back.nodes == g.nodes
            && multiset(back.edges) == multiset(g.edges)
            && ToDict(back, sourceType) == ToDict(g, sourceType)
            && Digest(hash, back, sourceType) == Digest(hash, g, sourceType)
  {
    NamesSorted(g.nodes);
    var names := SortSet(g.nodes.Keys, StringLess);
    EntriesRoundTrip(g.nodes, names);
    assert (map n | n in names :: g.nodes[n]) == g.nodes;
    EdgesSorted(g.edges);
  }

  /** The document determines the graph: two graphs have the same document exactly
      when they have the same nodes and, up to order, the same edges. With a hash
      that never collides the same holds of their digests. */
  lemma SameDocumentIff(g: Graph, h: Graph, sourceType: string, hash: GraphDocument -> string)
    requires forall n :: n in g.nodes ==> g.nodes[n].name == n
    requires forall n :: n in h.nodes ==> h.nodes[n].name == n
    ensures ToDict(g, sourceType) == ToDict(h, sourceType)
            <==> g.nodes == h.nodes && multiset(g.edges) == multiset(h.edges)
    ensures (forall d, e :: hash(d) == hash(e) ==> d == e) ==>
              (Digest(hash, g, sourceType) == Digest(hash, h, sourceType)
               <==> g.nodes == h.nodes && multiset(g.edges) == multiset(h.edges))
  {
    RoundTrip(g, sourceType, hash);
    RoundTrip(h, sourceType, hash);
    if multiset(g.edges) == multiset(h.edges) {
      EdgeLessIsStrictTotal();
      SortCorrect(g.edges, EdgeLess);
      SortCorrect(h.edges, EdgeLess);
      SortedUnique(Sort(g.edges, EdgeLess), Sort(h.edges, EdgeLess), EdgeLess);
    }
  }
}
