/**
  Expanding a subgraph into its parent, over already parsed configurations: nodes and edges
  are renamed with the subgraph's id as prefix, public ports become aliases, and an edge
  endpoint is resolved through the aliases before it is split into node and port.
  */
module SubgraphMerge {
  import opened Basics
  import opened Sequences
  import Cycles = CycleCheck

  type Value = int

  datatype NodeConfig = NodeConfig(id: string, kind: string, executor: string, options: map<string, Value>)

  datatype EdgeConfig = EdgeConfig(
    fromNode: string, fromPort: string, toNode: string, toPort: string,
    queue: Value, backEdge: bool, initialPacket: Value)

  datatype PortConfig = PortConfig(name: string, node: string, port: string)

  datatype GraphConfig = GraphConfig(
    nodes: seq<NodeConfig>, edges: seq<EdgeConfig>, inputs: seq<PortConfig>, outputs: seq<PortConfig>)

  // ---------------------------------------------------------------------------
  // Endpoints
  // ---------------------------------------------------------------------------

  function LastDot(s: string): (r: Option<nat>)
    ensures r.Some? ==> r.value < |s| && s[r.value] == '.' && forall j :: r.value < j < |s| ==> s[j] != '.'
    ensures r.None? ==> '.' !in s
  {
    if s == [] then None
    else if s[|s| - 1] == '.' then Some(|s| - 1)
    else LastDot(s[..|s| - 1])
  }

  function SplitEndpoint(endpoint: string): Option<(string, string)> {
    var dot := LastDot(endpoint);
    if dot.None? || dot.value == 0 || dot.value + 1 >= |endpoint| then None
    else Some((endpoint[..dot.value], endpoint[dot.value + 1..]))
  }

  lemma SplitsAtDot(node: string, port: string)
    requires node != "" && port != "" && '.' !in port
    ensures SplitEndpoint(node + "." + port) == Some((node, port))
  {
    var endpoint := node + "." + port;
    assert endpoint[|node|] == '.' && endpoint[..|node|] == node && endpoint[|node| + 1..] == port;
    forall j | |node| < j < |endpoint|
      ensures endpoint[j] != '.'
    {
      assert endpoint[j] == port[j - |node| - 1] && port[j - |node| - 1] in port;
    }
    assert LastDot(endpoint) == Some(|node|);
  }

  lemma SplitRejoins(endpoint: string, node: string, port: string)
    requires SplitEndpoint(endpoint) == Some((node, port))
    ensures endpoint == node + "." + port && node != "" && port != "" && '.' !in port
  {
    var dot := LastDot(endpoint).value;
    assert endpoint == endpoint[..dot] + [endpoint[dot]] + endpoint[dot + 1..];
    forall j | 0 <= j < |port|
      ensures port[j] != '.'
    {
      assert port[j] == endpoint[dot + 1 + j];
    }
  }

  /** An endpoint splits into `node` and `port` exactly when it is `node.port` with a dot-free port, both non-empty. */
  lemma SplitExactly(endpoint: string, node: string, port: string)
    ensures SplitEndpoint(endpoint) == Some((node, port)) <==>
            endpoint == node + "." + port && node != "" && port != "" && '.' !in port
  {
    if endpoint == node + "." + port && node != "" && port != "" && '.' !in port {
      SplitsAtDot(node, port);
    }
    if SplitEndpoint(endpoint) == Some((node, port)) {
      SplitRejoins(endpoint, node, port);
    }
  }

  // ---------------------------------------------------------------------------
  // Renaming
  // ---------------------------------------------------------------------------

  function Rename(prefix: string, id: string): string {
    prefix + "." + id
  }

  predicate Under(prefix: string, id: string) {
    |id| > |prefix| && id[..|prefix|] == prefix && id[|prefix|] == '.'
  }

  function Unrename(prefix: string, id: string): string
    requires Under(prefix, id)
  {
    id[|prefix| + 1..]
  }

  /** Renaming is a bijection onto the ids under the prefix. */
  lemma RenameBijective(prefix: string, id: string)
    ensures Under(prefix, Rename(prefix, id)) && Unrename(prefix, Rename(prefix, id)) == id
    ensures Under(prefix, id) ==> Rename(prefix, Unrename(prefix, id)) == id
  {
    var renamed := Rename(prefix, id);
    assert renamed[..|prefix|] == prefix && renamed[|prefix|] == '.' && renamed[|prefix| + 1..] == id;
    if Under(prefix, id) {
      assert id == id[..|prefix|] + [id[|prefix|]] + id[|prefix| + 1..];
    }
  }

  // ---------------------------------------------------------------------------
  // Merging
  // ---------------------------------------------------------------------------

  /** The overrides of a node are those whose key is its id, a dot, and the option's name. */
  predicate NameIn(id: string, overrides: map<string, Value>, name: string) {
    Rename(id, name) in overrides
  }

  function OptionOf(
    id: string, options: map<string, Value>, overrides: map<string, Value>, name: string): Option<Value>
  {
    if NameIn(id, overrides, name) then Some(overrides[Rename(id, name)])
    else if name in options then Some(options[name])
    else None
  }

  function Lookup(options: map<string, Value>, name: string): Option<Value> {
    if name in options then Some(options[name]) else None
  }

  /** `r` is `options` overlaid with the overrides of node `id`. */
  ghost predicate Overlays(
    id: string, options: map<string, Value>, overrides: map<string, Value>, r: map<string, Value>)
  {
    forall name :: Lookup(r, name) == OptionOf(id, options, overrides, name)
  }

  lemma OverlayStep(
    id: string, options: map<string, Value>, done: map<string, Value>, r: map<string, Value>, key: string, value: Value)
    requires Overlays(id, options, done, r)
    ensures Overlays(id, options, done[key := value], if Under(id, key) then r[Unrename(id, key) := value] else r)
  {
    var r' := if Under(id, key) then r[Unrename(id, key) := value] else r;
    forall name
      ensures Lookup(r', name) == OptionOf(id, options, done[key := value], name)
    {
      RenameBijective(id, name);
      RenameBijective(id, key);
      assert Lookup(r, name) == OptionOf(id, options, done, name);
    }
  }

  method MergeOptions(
    id: string, options: map<string, Value>, overrides: map<string, Value>) returns (merged: map<string, Value>)
    ensures Overlays(id, options, overrides, merged)
  {
    merged := options;
    var todo := overrides.Keys;
    ghost var done: map<string, Value> := map[];
    while todo != {}
      invariant todo <= overrides.Keys
      invariant done == overrides - todo
      invariant Overlays(id, options, done, merged)
      decreases todo
    {
      var key :| key in todo;
      OverlayStep(id, options, done, merged, key, overrides[key]);
      assert overrides - (todo - {key}) == done[key := overrides[key]];
      if Under(id, key) {
        merged := merged[Unrename(id, key) := overrides[key]];
      }
      done := done[key := overrides[key]];
      todo := todo - {key};
    }
    assert done == overrides;
  }

  ghost predicate MergedNode(prefix: string, node: NodeConfig, overrides: map<string, Value>, merged: NodeConfig) {
    && merged == node.(id := Rename(prefix, node.id), options := merged.options)
    && Overlays(node.id, node.options, overrides, merged.options)
  }

  ghost predicate MergedNodes(
    prefix: string, nodes: seq<NodeConfig>, overrides: map<string, Value>, merged: seq<NodeConfig>)
  {
    |merged| == |nodes| && forall i :: 0 <= i < |nodes| ==> MergedNode(prefix, nodes[i], overrides, merged[i])
  }

  function MergedEdge(prefix: string, edge: EdgeConfig): EdgeConfig {
    edge.(fromNode := Rename(prefix, edge.fromNode), toNode := Rename(prefix, edge.toNode))
  }

  function MergedEdges(prefix: string, edges: seq<EdgeConfig>): seq<EdgeConfig> {
    seq(|edges|, i requires 0 <= i < |edges| => MergedEdge(prefix, edges[i]))
  }

  ghost predicate Merged(
    parent: GraphConfig, child: GraphConfig, prefix: string, overrides: map<string, Value>, merged: GraphConfig)
  {
    && |parent.nodes| <= |merged.nodes|
    && parent.nodes == merged.nodes[..|parent.nodes|]
    && MergedNodes(prefix, child.nodes, overrides, merged.nodes[|parent.nodes|..])
    && merged == parent.(nodes := merged.nodes, edges := parent.edges + MergedEdges(prefix, child.edges))
  }

  /** Append the renamed nodes, then the renamed edges; what the parent had is untouched. */
  method MergeSubgraph(parent: GraphConfig, child: GraphConfig, prefix: string, overrides: map<string, Value>)
      returns (ok: bool, merged: GraphConfig)
    ensures ok <==> prefix != ""
    ensures !ok ==> merged == parent
    ensures ok ==> Merged(parent, child, prefix, overrides, merged)
  {
    merged := parent;
    if prefix == "" {
      return false, merged;
    }
    var nodes := [];
    for i := 0 to |child.nodes|
      invariant MergedNodes(prefix, child.nodes[..i], overrides, nodes)
      invariant merged == parent.(nodes := parent.nodes + nodes)
    {
      var node := child.nodes[i];
      var options := MergeOptions(node.id, node.options, overrides);
      node := node.(id := prefix + "." + node.id, options := options);
      assert MergedNode(prefix, child.nodes[i], overrides, node);
      nodes := nodes + [node];
      merged := merged.(nodes := merged.nodes + [node]);
    }
    assert merged.nodes[|parent.nodes|..] == nodes;
    assert merged.nodes[..|parent.nodes|] == parent.nodes;
    assert child.nodes[..|child.nodes|] == child.nodes;
    ghost var before := merged;
    for i := 0 to |child.edges|
      invariant merged == before.(edges := parent.edges + MergedEdges(prefix, child.edges[..i]))
    {
      var edge := child.edges[i];
      assert child.edges[..i + 1] == child.edges[..i] + [edge];
      merged := merged.(edges := merged.edges +
        [edge.(fromNode := prefix + "." + edge.fromNode, toNode := prefix + "." + edge.toNode)]);
    }
    assert child.edges[..|child.edges|] == child.edges;
    ok := true;
  }

  // ---------------------------------------------------------------------------
  // What renaming keeps apart
  // ---------------------------------------------------------------------------

  /**
    Two qualified names are one string exactly when they are one pair, or one prefix continues the other after a dot.
    */
  lemma CollidesExactlyWhen(p: string, a: string, q: string, b: string)
    ensures Rename(p, a) == Rename(q, b) <==>
            || (p == q && a == b)
            || (Under(p, q) && a == Rename(Unrename(p, q), b))
            || (Under(q, p) && b == Rename(Unrename(q, p), a))
  {
    var s, t := Rename(p, a), Rename(q, b);
    assert s[..|p|] == p && t[..|q|] == q && s[|p| + 1..] == a && t[|q| + 1..] == b;
    if s == t {
      if |p| < |q| {
        CollisionNests(p, a, q, b);
      } else if |q| < |p| {
        CollisionNests(q, b, p, a);
      }
    }
    if Under(p, q) {
      RenameBijective(p, q);
      assert Rename(q, b) == p + "." + Rename(Unrename(p, q), b);
    }
    if Under(q, p) {
      RenameBijective(q, p);
      assert Rename(p, a) == q + "." + Rename(Unrename(q, p), a);
    }
  }

  lemma CollisionNests(p: string, a: string, q: string, b: string)
    requires Rename(p, a) == Rename(q, b) && |p| < |q|
    ensures Under(p, q) && a == Rename(Unrename(p, q), b)
  {
    var s := Rename(p, a);
    assert q == s[..|q|];
    assert q[..|p|] == s[..|p|] == p && q[|p|] == s[|p|] == '.';
    calc {
      a;
      s[|p| + 1..];
      Rename(q, b)[|p| + 1..];
      q[|p| + 1..] + "." + b;
    }
  }

  /** With a dot-free id a qualified name is read in one way only. */
  lemma DotFreeIsUnambiguous(p: string, a: string, q: string, b: string)
    requires '.' !in p && '.' !in q && Rename(p, a) == Rename(q, b)
    ensures p == q && a == b
  {
    UnderHasDot(p, q);
    UnderHasDot(q, p);
    CollidesExactlyWhen(p, a, q, b);
  }

  lemma UnderHasDot(prefix: string, id: string)
    ensures Under(prefix, id) ==> '.' in id
  {
    if Under(prefix, id) {
      assert id[|prefix|] in id;
    }
  }

  ghost predicate Distinct(nodes: seq<NodeConfig>) {
    forall i, j :: 0 <= i < j < |nodes| ==> nodes[i].id != nodes[j].id
  }

  ghost predicate HasId(nodes: seq<NodeConfig>, id: string) {
    exists i :: 0 <= i < |nodes| && nodes[i].id == id
  }

  /** Merged node ids are distinct exactly when each side's are and no parent node already has a renamed id. */
  lemma IdsStayDistinctExactlyWhen(
    parent: GraphConfig, child: GraphConfig, prefix: string, overrides: map<string, Value>, merged: GraphConfig)
    requires Merged(parent, child, prefix, overrides, merged)
    ensures Distinct(merged.nodes) <==>
            && Distinct(parent.nodes)
            && Distinct(child.nodes)
            && forall i :: 0 <= i < |child.nodes| ==> !HasId(parent.nodes, Rename(prefix, child.nodes[i].id))
  {
    var n := |parent.nodes|;
    var tail := merged.nodes[n..];
    forall i | 0 <= i < |child.nodes|
      ensures merged.nodes[n + i].id == Rename(prefix, child.nodes[i].id)
      ensures Unrename(prefix, Rename(prefix, child.nodes[i].id)) == child.nodes[i].id
    {
      assert MergedNode(prefix, child.nodes[i], overrides, tail[i]);
      RenameBijective(prefix, child.nodes[i].id);
    }
    assert forall i :: 0 <= i < n ==> merged.nodes[i] == parent.nodes[i];
    if Distinct(merged.nodes) {
      forall i, j | 0 <= i < j < |child.nodes|
        ensures child.nodes[i].id != child.nodes[j].id
      {
        assert merged.nodes[n + i].id != merged.nodes[n + j].id;
      }
      forall i | 0 <= i < |child.nodes|
        ensures !HasId(parent.nodes, Rename(prefix, child.nodes[i].id))
      {
        assert forall j :: 0 <= j < n ==> merged.nodes[j].id != merged.nodes[n + i].id;
      }
    } else {
      var i, j :| 0 <= i < j < |merged.nodes| && merged.nodes[i].id == merged.nodes[j].id;
      if j < n {
        assert parent.nodes[i].id == parent.nodes[j].id;
      } else if n <= i {
        assert merged.nodes[n + (i - n)].id == merged.nodes[n + (j - n)].id;
        assert child.nodes[i - n].id == child.nodes[j - n].id;
      } else {
        assert merged.nodes[n + (j - n)].id == parent.nodes[i].id;
        assert HasId(parent.nodes, Rename(prefix, child.nodes[j - n].id));
      }
    }
  }

  // ---------------------------------------------------------------------------
  // Cycles
  // ---------------------------------------------------------------------------

  function Wiring(edges: seq<EdgeConfig>): seq<Cycles.Edge> {
    seq(|edges|, i requires 0 <= i < |edges| => Cycles.Edge(edges[i].fromNode, edges[i].toNode, edges[i].backEdge))
  }

  /** A node at either end of an ordinary edge. */
  ghost predicate Wired(wires: seq<Cycles.Edge>, n: string) {
    exists w :: w in wires && !w.backEdge && (w.from == n || w.to == n)
  }

  /** No node is wired by both sides once the child's are renamed. */
  ghost predicate Apart(prefix: string, parent: seq<EdgeConfig>, child: seq<EdgeConfig>) {
    forall n :: Wired(Wiring(child), n) ==> !Wired(Wiring(parent), Rename(prefix, n))
  }

  function RenamedWire(prefix: string, wire: Cycles.Edge): Cycles.Edge {
    Cycles.Edge(Rename(prefix, wire.from), Rename(prefix, wire.to), wire.backEdge)
  }

  lemma WiringAppends(a: seq<EdgeConfig>, b: seq<EdgeConfig>)
    ensures Wiring(a + b) == Wiring(a) + Wiring(b)
  {
  }

  lemma WiringRenames(prefix: string, edges: seq<EdgeConfig>, wire: Cycles.Edge)
    ensures wire in Wiring(MergedEdges(prefix, edges)) <==>
            exists c :: c in Wiring(edges) && wire == RenamedWire(prefix, c)
  {
    var before, after := Wiring(edges), Wiring(MergedEdges(prefix, edges));
    assert forall i :: 0 <= i < |edges| ==> after[i] == RenamedWire(prefix, before[i]);
    if wire in after {
      var i :| 0 <= i < |after| && after[i] == wire;
      assert before[i] in before;
    }
    if c :| c in before && wire == RenamedWire(prefix, c) {
      var i :| 0 <= i < |before| && before[i] == c;
      assert after[i] == wire;
    }
  }

  /** Every wire of the result is one of the parent's or the renaming of one of the child's, and conversely. */
  lemma MergedWire(parent: seq<EdgeConfig>, child: seq<EdgeConfig>, prefix: string, wire: Cycles.Edge)
    ensures wire in Wiring(parent + MergedEdges(prefix, child)) <==>
            wire in Wiring(parent) || exists c :: c in Wiring(child) && wire == RenamedWire(prefix, c)
  {
    WiringAppends(parent, MergedEdges(prefix, child));
    WiringRenames(prefix, child, wire);
  }

  lemma MergedLeads(parent: seq<EdgeConfig>, child: seq<EdgeConfig>, prefix: string, a: string, b: string)
    ensures Cycles.Leads(Wiring(parent), a, b) ==> Cycles.Leads(Wiring(parent + MergedEdges(prefix, child)), a, b)
    ensures Cycles.Leads(Wiring(child), a, b) ==>
              Cycles.Leads(Wiring(parent + MergedEdges(prefix, child)), Rename(prefix, a), Rename(prefix, b))
    ensures Cycles.Leads(Wiring(parent + MergedEdges(prefix, child)), a, b) ==>
              || Cycles.Leads(Wiring(parent), a, b)
              || (Under(prefix, a) && Under(prefix, b) &&
                  Cycles.Leads(Wiring(child), Unrename(prefix, a), Unrename(prefix, b)))
  {
    var wire := Cycles.Edge(a, b, false);
    MergedWire(parent, child, prefix, wire);
    MergedWire(parent, child, prefix, RenamedWire(prefix, wire));
    if c :| c in Wiring(child) && wire == RenamedWire(prefix, c) {
      RenameBijective(prefix, c.from);
      RenameBijective(prefix, c.to);
    }
  }

  /** The child's rank on the renamed nodes it wires, the parent's everywhere else. */
  ghost function MergedRank(
    prefix: string, parent: map<string, nat>, child: map<string, nat>, wired: set<string>): map<string, nat>
  {
    var renamed := set n | n in wired :: Rename(prefix, n);
    parent + map m | m in renamed && Under(prefix, m) && Unrename(prefix, m) in child :: child[Unrename(prefix, m)]
  }

  ghost function ChildRank(prefix: string, merged: map<string, nat>): map<string, nat> {
    var names := set m | m in merged && Under(prefix, m) :: Unrename(prefix, m);
    map n | n in names && Rename(prefix, n) in merged :: merged[Rename(prefix, n)]
  }

  /** Merging hides no cycle, and creates none when no node is wired by both sides. */
  lemma MergeKeepsAcyclicity(parent: seq<EdgeConfig>, child: seq<EdgeConfig>, prefix: string)
    ensures
      var all := Wiring(parent + MergedEdges(prefix, child));
      && (Cycles.HasOrder(all) ==> Cycles.HasOrder(Wiring(parent)) && Cycles.HasOrder(Wiring(child)))
      && (Apart(prefix, parent, child) && Cycles.HasOrder(Wiring(parent)) && Cycles.HasOrder(Wiring(child)) ==>
          Cycles.HasOrder(all))
  {
    var all := Wiring(parent + MergedEdges(prefix, child));
    if Cycles.HasOrder(all) {
      var rank :| Cycles.Ranks(all, rank);
      assert Cycles.Ranks(Wiring(parent), rank) by {
        forall a, b | Cycles.Leads(Wiring(parent), a, b)
          ensures a in rank && b in rank && rank[b] < rank[a]
        {
          MergedLeads(parent, child, prefix, a, b);
        }
      }
      assert Cycles.Ranks(Wiring(child), ChildRank(prefix, rank)) by {
        forall a, b | Cycles.Leads(Wiring(child), a, b)
          ensures
            var r := ChildRank(prefix, rank);
            a in r && b in r && r[b] < r[a]
        {
          MergedLeads(parent, child, prefix, a, b);
          ChildRankAt(prefix, rank, a);
          ChildRankAt(prefix, rank, b);
        }
      }
    }
    if Apart(prefix, parent, child) && Cycles.HasOrder(Wiring(parent)) && Cycles.HasOrder(Wiring(child)) {
      var p :| Cycles.Ranks(Wiring(parent), p);
      var c :| Cycles.Ranks(Wiring(child), c);
      MergedRanks(parent, child, prefix, p, c);
    }
  }

  /** An edge that already joins the subgraph's renamed nodes can close a cycle with an edge inside it. */
  lemma TouchingCanCloseACycle(prefix: string, x: string, y: string, fromPort: string, toPort: string)
    requires x != y
    ensures
      var outer := EdgeConfig(Rename(prefix, x), fromPort, Rename(prefix, y), toPort, 0, false, 0);
      var inner := EdgeConfig(y, fromPort, x, toPort, 0, false, 0);
      && Cycles.HasOrder(Wiring([outer])) && Cycles.HasOrder(Wiring([inner]))
      && Cycles.HasCycle(Wiring([outer] + MergedEdges(prefix, [inner])))
  {
    var a, b := Rename(prefix, x), Rename(prefix, y);
    var outer := EdgeConfig(a, fromPort, b, toPort, 0, false, 0);
    var inner := EdgeConfig(y, fromPort, x, toPort, 0, false, 0);
    RenameBijective(prefix, x);
    RenameBijective(prefix, y);
    assert Cycles.Ranks(Wiring([outer]), map[a := 1, b := 0]);
    assert Cycles.Ranks(Wiring([inner]), map[y := 1, x := 0]);
    var all := Wiring([outer] + MergedEdges(prefix, [inner]));
    assert all[0] == Cycles.Edge(a, b, false) && all[1] == Cycles.Edge(b, a, false);
    assert Cycles.Leads(all, a, b) && Cycles.Leads(all, b, a);
    assert Cycles.IsCycle(all, [a, b, a]);
  }

  lemma ChildRankAt(prefix: string, rank: map<string, nat>, a: string)
    requires Rename(prefix, a) in rank
    ensures a in ChildRank(prefix, rank) && ChildRank(prefix, rank)[a] == rank[Rename(prefix, a)]
  {
    RenameBijective(prefix, a);
    assert Unrename(prefix, Rename(prefix, a)) == a;
  }

  lemma LeadsWires(wires: seq<Cycles.Edge>, a: string, b: string)
    requires Cycles.Leads(wires, a, b)
    ensures Wired(wires, a) && Wired(wires, b)
  {
    assert Cycles.Edge(a, b, false) in wires;
  }

  lemma MergedRanks(
    parent: seq<EdgeConfig>, child: seq<EdgeConfig>, prefix: string, p: map<string, nat>, c: map<string, nat>)
    requires Apart(prefix, parent, child)
    requires Cycles.Ranks(Wiring(parent), p) && Cycles.Ranks(Wiring(child), c)
    ensures Cycles.HasOrder(Wiring(parent + MergedEdges(prefix, child)))
  {
    var wired := set n | n in c && Wired(Wiring(child), n);
    var rank := MergedRank(prefix, p, c, wired);
    forall a, b | Cycles.Leads(Wiring(parent + MergedEdges(prefix, child)), a, b)
      ensures a in rank && b in rank && rank[b] < rank[a]
    {
      MergedLeads(parent, child, prefix, a, b);
      if Cycles.Leads(Wiring(parent), a, b) {
        LeadsWires(Wiring(parent), a, b);
        RankOff(prefix, p, c, wired, a);
        RankOff(prefix, p, c, wired, b);
      } else {
        LeadsWires(Wiring(child), Unrename(prefix, a), Unrename(prefix, b));
        RankOn(prefix, p, c, wired, a);
        RankOn(prefix, p, c, wired, b);
      }
    }
    assert Cycles.Ranks(Wiring(parent + MergedEdges(prefix, child)), rank);
  }

  lemma RankOn(prefix: string, p: map<string, nat>, c: map<string, nat>, wired: set<string>, m: string)
    requires Under(prefix, m) && Unrename(prefix, m) in c && Unrename(prefix, m) in wired
    ensures m in MergedRank(prefix, p, c, wired) && MergedRank(prefix, p, c, wired)[m] == c[Unrename(prefix, m)]
  {
    RenameBijective(prefix, m);
    assert Rename(prefix, Unrename(prefix, m)) == m;
  }

  lemma RankOff(prefix: string, p: map<string, nat>, c: map<string, nat>, wired: set<string>, m: string)
    requires m in p && forall n :: n in wired ==> m != Rename(prefix, n)
    ensures m in MergedRank(prefix, p, c, wired) && MergedRank(prefix, p, c, wired)[m] == p[m]
  {
  }

  /** Every edge joins nodes of the graph, as validation asks. */
  ghost predicate EndpointsExist(g: GraphConfig) {
    forall i :: 0 <= i < |g.edges| ==> HasId(g.nodes, g.edges[i].fromNode) && HasId(g.nodes, g.edges[i].toNode)
  }

  lemma WiredExists(g: GraphConfig, n: string)
    requires EndpointsExist(g) && Wired(Wiring(g.edges), n)
    ensures HasId(g.nodes, n)
  {
    var w :| w in Wiring(g.edges) && !w.backEdge && (w.from == n || w.to == n);
    var i :| 0 <= i < |g.edges| && Wiring(g.edges)[i] == w;
    assert g.edges[i].fromNode == w.from && g.edges[i].toNode == w.to;
  }

  /** Merging graphs whose ids stay distinct can be ordered exactly when both sides can. */
  lemma DisjointMergeIsAcyclicIff(
    parent: GraphConfig, child: GraphConfig, prefix: string, overrides: map<string, Value>, merged: GraphConfig)
    requires Merged(parent, child, prefix, overrides, merged) && Distinct(merged.nodes)
    requires EndpointsExist(parent) && EndpointsExist(child)
    ensures Cycles.HasOrder(Wiring(merged.edges)) <==>
            Cycles.HasOrder(Wiring(parent.edges)) && Cycles.HasOrder(Wiring(child.edges))
  {
    IdsStayDistinctExactlyWhen(parent, child, prefix, overrides, merged);
    forall n | Wired(Wiring(child.edges), n)
      ensures !Wired(Wiring(parent.edges), Rename(prefix, n))
    {
      WiredExists(child, n);
      if Wired(Wiring(parent.edges), Rename(prefix, n)) {
        WiredExists(parent, Rename(prefix, n));
      }
    }
    MergeKeepsAcyclicity(parent.edges, child.edges, prefix);
  }

  // ---------------------------------------------------------------------------
  // Public ports
  // ---------------------------------------------------------------------------

  type Aliases = map<string, string>

  function AliasKey(id: string, port: PortConfig): string {
    id + "." + port.name
  }

  function AliasTarget(id: string, port: PortConfig): string {
    id + "." + port.node + "." + port.port
  }

  /** A public port as it is registered: the subgraph's id and the port. */
  datatype Entry = Entry(id: string, port: PortConfig)

  datatype Subgraph = Subgraph(id: string, ports: seq<PortConfig>)

  function KeyOf(e: Entry): string {
    AliasKey(e.id, e.port)
  }

  function TargetOf(e: Entry): string {
    AliasTarget(e.id, e.port)
  }

  function EntriesOf(g: Subgraph): seq<Entry> {
    seq(|g.ports|, i requires 0 <= i < |g.ports| => Entry(g.id, g.ports[i]))
  }

  function AllEntries(graphs: seq<Subgraph>): seq<Entry> {
    if graphs == [] then [] else AllEntries(Front(graphs)) + EntriesOf(Final(graphs))
  }

  /** A key that is already there keeps its target. */
  function Emplaced(aliases: Aliases, e: Entry): Aliases {
    if KeyOf(e) in aliases then aliases else aliases[KeyOf(e) := TargetOf(e)]
  }

  function Registered(aliases: Aliases, entries: seq<Entry>): Aliases {
    if entries == [] then aliases else Emplaced(Registered(aliases, Front(entries)), Final(entries))
  }

  lemma {:induction false} RegisteredConcat(aliases: Aliases, a: seq<Entry>, b: seq<Entry>)
    ensures Registered(aliases, a + b) == Registered(Registered(aliases, a), b)
    decreases |b|
  {
    if b == [] {
      assert a + b == a;
    } else {
      assert Front(a + b) == a + Front(b) && Final(a + b) == Final(b);
      RegisteredConcat(aliases, a, Front(b));
    }
  }

  method AddAliases(aliases: Aliases, g: Subgraph) returns (added: Aliases)
    ensures added == Registered(aliases, EntriesOf(g))
  {
    added := aliases;
    for n := 0 to |g.ports|
      invariant added == Registered(aliases, EntriesOf(g)[..n])
    {
      assert Front(EntriesOf(g)[..n + 1]) == EntriesOf(g)[..n];
      var key := g.id + "." + g.ports[n].name;
      if key !in added {
        added := added[key := g.id + "." + g.ports[n].node + "." + g.ports[n].port];
      }
    }
    assert EntriesOf(g)[..|g.ports|] == EntriesOf(g);
  }

  /** The loop over the subgraphs of one file. */
  method CollectAliases(graphs: seq<Subgraph>) returns (aliases: Aliases)
    ensures aliases == Registered(map[], AllEntries(graphs))
  {
    aliases := map[];
    for n := 0 to |graphs|
      invariant aliases == Registered(map[], AllEntries(graphs[..n]))
    {
      assert Front(graphs[..n + 1]) == graphs[..n];
      RegisteredConcat(map[], AllEntries(graphs[..n]), EntriesOf(graphs[n]));
      aliases := AddAliases(aliases, graphs[n]);
    }
    assert graphs[..|graphs|] == graphs;
  }

  /** Entry `i` is the first with its key. */
  ghost predicate IsFirst(entries: seq<Entry>, i: nat)
    requires i < |entries|
  {
    forall j :: 0 <= j < i ==> KeyOf(entries[j]) != KeyOf(entries[i])
  }

  lemma {:induction false} KeysRegistered(entries: seq<Entry>, k: string)
    ensures k in Registered(map[], entries) <==> exists i :: 0 <= i < |entries| && KeyOf(entries[i]) == k
  {
    if entries != [] {
      KeysRegistered(Front(entries), k);
      assert forall i :: 0 <= i < |entries| - 1 ==> Front(entries)[i] == entries[i];
      assert Final(entries) == entries[|entries| - 1];
    }
  }

  /** A key leads to the target of the first port registered under it. */
  lemma {:induction false} FirstRegisteredWins(entries: seq<Entry>, i: nat)
    requires i < |entries| && IsFirst(entries, i)
    ensures KeyOf(entries[i]) in Registered(map[], entries)
    ensures Registered(map[], entries)[KeyOf(entries[i])] == TargetOf(entries[i])
  {
    assert forall j :: 0 <= j < |entries| - 1 ==> Front(entries)[j] == entries[j];
    if i < |entries| - 1 {
      FirstRegisteredWins(Front(entries), i);
    } else {
      KeysRegistered(Front(entries), KeyOf(entries[i]));
    }
  }

  function ResolveEndpoint(aliases: Aliases, endpoint: string): Option<(string, string)> {
    SplitEndpoint(if endpoint in aliases then aliases[endpoint] else endpoint)
  }

  /** An edge to a public port ends at the renamed inner node and that node's own port. */
  lemma AliasReachesInnerPort(aliases: Aliases, id: string, port: PortConfig, endpoint: string)
    requires SplitEndpoint(endpoint) == Some((port.node, port.port))
    requires AliasKey(id, port) in aliases && aliases[AliasKey(id, port)] == AliasTarget(id, port)
    ensures ResolveEndpoint(aliases, AliasKey(id, port)) == Some((Rename(id, port.node), port.port))
  {
    SplitExactly(endpoint, port.node, port.port);
    assert AliasTarget(id, port) == Rename(id, port.node) + "." + port.port;
    SplitExactly(AliasTarget(id, port), Rename(id, port.node), port.port);
  }

  /**
    An edge to a registered public port ends at its own inner port exactly when the first port registered under the
    same name has the same target.
    */
  lemma PublicPortResolvesIff(entries: seq<Entry>, first: nat, i: nat, endpoint: string)
    requires first <= i < |entries| && IsFirst(entries, first) && KeyOf(entries[first]) == KeyOf(entries[i])
    requires SplitEndpoint(endpoint) == Some((entries[i].port.node, entries[i].port.port))
    ensures
      var e := entries[i];
      ResolveEndpoint(Registered(map[], entries), KeyOf(e)) == Some((Rename(e.id, e.port.node), e.port.port)) <==>
      TargetOf(entries[first]) == TargetOf(e)
  {
    var e := entries[i];
    FirstRegisteredWins(entries, first);
    SplitExactly(endpoint, e.port.node, e.port.port);
    assert TargetOf(e) == Rename(e.id, e.port.node) + "." + e.port.port;
    SplitExactly(TargetOf(entries[first]), Rename(e.id, e.port.node), e.port.port);
  }

  /** Two subgraphs, the id of the second continuing that of the first after a dot. */
  function DottedPair(a: string, b: string, first: PortConfig, second: PortConfig): seq<Subgraph> {
    [Subgraph(a, [first]), Subgraph(a + "." + b, [second])]
  }

  lemma DottedEntries(a: string, b: string, first: PortConfig, second: PortConfig)
    ensures AllEntries(DottedPair(a, b, first, second)) == [Entry(a, first), Entry(a + "." + b, second)]
  {
    var g, h := Subgraph(a, [first]), Subgraph(a + "." + b, [second]);
    assert Front([g]) == [] && Front([g, h]) == [g];
    assert EntriesOf(g) == [Entry(a, first)] && EntriesOf(h) == [Entry(a + "." + b, second)];
    assert AllEntries([g]) == [] + [Entry(a, first)];
  }

  /**
    Dotted subgraph ids can share a key. After both subgraphs have been registered an edge to the second one's port ends
    inside the first one.
    */
  lemma DottedIdsMisroute(a: string, b: string, first: PortConfig, second: PortConfig, endpoint: string)
    requires first.name == b + "." + second.name && AliasTarget(a, first) != AliasTarget(a + "." + b, second)
    requires SplitEndpoint(endpoint) == Some((first.node, first.port))
    ensures
      var aliases := Registered(map[], AllEntries(DottedPair(a, b, first, second)));
      var end := ResolveEndpoint(aliases, AliasKey(a + "." + b, second));
      end == Some((Rename(a, first.node), first.port)) && end != Some((Rename(a + "." + b, second.node), second.port))
  {
    var entries := AllEntries(DottedPair(a, b, first, second));
    var aliases := Registered(map[], entries);
    DottedEntries(a, b, first, second);
    assert entries[0] == Entry(a, first);
    FirstRegisteredWins(entries, 0);
    assert AliasKey(a + "." + b, second) == AliasKey(a, first);
    AliasReachesInnerPort(aliases, a, first, endpoint);
    assert ResolveEndpoint(aliases, AliasKey(a + "." + b, second)) == Some((Rename(a, first.node), first.port));
    var mine, other := Rename(a, first.node), Rename(a + "." + b, second.node);
    assert AliasTarget(a, first) == mine + "." + first.port;
    assert AliasTarget(a + "." + b, second) == other + "." + second.port;
    assert (mine, first.port) != (other, second.port);
  }
}
