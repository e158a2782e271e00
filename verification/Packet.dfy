/** The packet sent to a model is cut down until it fits: record details go first, farthest
    records first, then whole records. */
module Packet {
  import opened Sorting

  /** Ids are numbered in their byte order; only their order and equality matter. */
  datatype Node = Node(reference: nat, id: nat, root: bool, hops: nat, payload: bool)

  datatype Edge = Edge(reference: nat, id: nat, source: nat, target: nat, payload: bool)

  datatype Packet = Packet(nodes: seq<Node>, edges: seq<Edge>)

  // ------------------------------------------------------------------ order

  predicate NodeLeq(a: Node, b: Node) {
    if a.root != b.root then a.root
    else if a.hops != b.hops then a.hops < b.hops
    else a.id <= b.id
  }

  predicate EdgeLeq(a: Edge, b: Edge) { a.id <= b.id }

  function NumberNodes(nodes: seq<Node>, k: nat): seq<Node> {
    if nodes == [] then [] else [nodes[0].(reference := k)] + NumberNodes(nodes[1..], k + 1)
  }

  function NumberEdges(edges: seq<Edge>, k: nat): seq<Edge> {
    if edges == [] then [] else [edges[0].(reference := k)] + NumberEdges(edges[1..], k + 1)
  }

  /** The packet before it is cut: roots first, nearer nodes before farther ones, references
      counted from 1 in that order. */
  function Assemble(nodes: seq<Node>, edges: seq<Edge>): Packet {
    Packet(NumberNodes(Sort(NodeLeq, nodes), 1), NumberEdges(Sort(EdgeLeq, edges), 1))
  }

  // ---------------------------------------------------------------- cutting

  /** Farther nodes lose their details first; the id breaks ties. */
  predicate Nearer(a: Node, b: Node) {
    a.hops < b.hops || (a.hops == b.hops && a.id <= b.id)
  }

  predicate Heavy(n: Node) { n.payload && !n.root }

  /** The last of the farthest nodes, roots aside, that still has its details; `|nodes|` if
      there is none. */
  function Farthest(nodes: seq<Node>): (i: nat)
    ensures i <= |nodes|
    ensures i == |nodes| ==> forall k :: 0 <= k < |nodes| ==> !Heavy(nodes[k])
    ensures i < |nodes| ==> Heavy(nodes[i]) && forall k :: 0 <= k < |nodes| && Heavy(nodes[k]) ==>
            Nearer(nodes[k], nodes[i])
  {
    if nodes == [] then 0
    else
      var n := |nodes| - 1;
      var i := Farthest(nodes[..n]);
      if Heavy(nodes[n]) then (if i == n || Nearer(nodes[i], nodes[n]) then n else i)
      else if i == n then n + 1
      else i
  }

  function LastDetailed(edges: seq<Edge>): (i: nat)
    ensures i <= |edges|
    ensures i == |edges| ==> forall k :: 0 <= k < |edges| ==> !edges[k].payload
    ensures i < |edges| ==> edges[i].payload && forall k :: i < k < |edges| ==> !edges[k].payload
  {
    if edges == [] then 0
    else if edges[|edges| - 1].payload then |edges| - 1
    else
      var i := LastDetailed(edges[..|edges| - 1]);
      if i == |edges| - 1 then |edges| else i
  }

  function LastOther(nodes: seq<Node>): (i: nat)
    ensures i <= |nodes|
    ensures i == |nodes| ==> forall k :: 0 <= k < |nodes| ==> nodes[k].root
    ensures i < |nodes| ==> !nodes[i].root && forall k :: i < k < |nodes| ==> nodes[k].root
  {
    if nodes == [] then 0
    else if !nodes[|nodes| - 1].root then |nodes| - 1
    else
      var i := LastOther(nodes[..|nodes| - 1]);
      if i == |nodes| - 1 then |nodes| else i
  }

  function NodeIds(nodes: seq<Node>): set<nat> {
    set k | 0 <= k < |nodes| :: nodes[k].id
  }

  /** The edges with both ends among `ids`. */
  function Within(edges: seq<Edge>, ids: set<nat>): seq<Edge> {
    if edges == [] then []
    else (if edges[0].source in ids && edges[0].target in ids then [edges[0]] else []) + Within(edges[1..], ids)
  }

  /** One cut, or the packet itself when nothing is left to cut. */
  function Cut(p: Packet): Packet {
    var far, detailed, other := Farthest(p.nodes), LastDetailed(p.edges), LastOther(p.nodes);
    if far < |p.nodes| then p.(nodes := p.nodes[far := p.nodes[far].(payload := false)])
    else if detailed < |p.edges| then p.(edges := p.edges[detailed := p.edges[detailed].(payload := false)])
    else if other < |p.nodes| then
      var nodes := p.nodes[..other] + p.nodes[other + 1..];
      Packet(nodes, Within(p.edges, NodeIds(nodes)))
    else p
  }

  function Details(nodes: seq<Node>): nat {
    if nodes == [] then 0 else (if nodes[0].payload then 1 else 0) + Details(nodes[1..])
  }

  function EdgeDetails(edges: seq<Edge>): nat {
    if edges == [] then 0 else (if edges[0].payload then 1 else 0) + EdgeDetails(edges[1..])
  }

  lemma {:induction false} DetailsDrop(nodes: seq<Node>, i: nat)
    requires i < |nodes| && nodes[i].payload
    ensures Details(nodes[i := nodes[i].(payload := false)]) < Details(nodes)
  {
    if i > 0 { DetailsDrop(nodes[1..], i - 1); }
  }

  lemma {:induction false} EdgeDetailsDrop(edges: seq<Edge>, i: nat)
    requires i < |edges| && edges[i].payload
    ensures EdgeDetails(edges[i := edges[i].(payload := false)]) < EdgeDetails(edges)
  {
    if i > 0 { EdgeDetailsDrop(edges[1..], i - 1); }
  }

  /** Every cut leaves fewer records or fewer details. */
  lemma CutShrinks(p: Packet)
    ensures var q := Cut(p);
            || q == p
            || |q.nodes| < |p.nodes|
            || (|q.nodes| == |p.nodes| && Details(q.nodes) < Details(p.nodes))
            || (|q.nodes| == |p.nodes| && Details(q.nodes) == Details(p.nodes)
               && EdgeDetails(q.edges) < EdgeDetails(p.edges))
  {
    var far, detailed := Farthest(p.nodes), LastDetailed(p.edges);
    if far < |p.nodes| { DetailsDrop(p.nodes, far); }
    else if detailed < |p.edges| { EdgeDetailsDrop(p.edges, detailed); }
  }

  /** Cut until the packet fits or nothing is left to cut. */
  function Reduce(size: Packet -> nat, cap: nat, p: Packet): Packet
    decreases |p.nodes|, Details(p.nodes), EdgeDetails(p.edges)
  {
    if size(p) <= cap || Cut(p) == p then p
    else CutShrinks(p); Reduce(size, cap, Cut(p))
  }

  /** The loop of the program.  `dropped` counts cuts. */
  method ReduceLoop(size: Packet -> nat, cap: nat, start: Packet) returns (p: Packet, dropped: nat)
    ensures p == Reduce(size, cap, start)
    ensures dropped > 0 <==> p != start
  {
    p, dropped := start, 0;
    while size(p) > cap
      invariant Reduce(size, cap, p) == Reduce(size, cap, start)
      invariant dropped == 0 ==> p == start
      invariant dropped > 0 ==> p != start && Smaller(p, start)
      decreases |p.nodes|, Details(p.nodes), EdgeDetails(p.edges)
    {
      CutShrinks(p);
      var far := Farthest(p.nodes);
      var detailed := LastDetailed(p.edges);
      var other := LastOther(p.nodes);
      if far < |p.nodes| {
        p := p.(nodes := p.nodes[far := p.nodes[far].(payload := false)]);
      } else if detailed < |p.edges| {
        p := p.(edges := p.edges[detailed := p.edges[detailed].(payload := false)]);
      } else if other < |p.nodes| {
        var nodes := p.nodes[..other] + p.nodes[other + 1..];
        p := Packet(nodes, Within(p.edges, NodeIds(nodes)));
      } else {
        break;
      }
      dropped := dropped + 1;
    }
  }

  /** The order in which cutting descends. */
  predicate Smaller(q: Packet, p: Packet) {
    || |q.nodes| < |p.nodes|
    || (|q.nodes| == |p.nodes| && Details(q.nodes) < Details(p.nodes))
    || (|q.nodes| == |p.nodes| && Details(q.nodes) == Details(p.nodes) && EdgeDetails(q.edges) < EdgeDetails(p.edges))
  }

  // -------------------------------------------------------------- invariant

  ghost predicate RootsFirst(nodes: seq<Node>) {
    forall i, j :: 0 <= i < j < |nodes| && nodes[j].root ==> nodes[i].root
  }

  /** The same record, with its details or without. */
  predicate SameNode(a: Node, b: Node) {
    a.(payload := b.payload) == b && (a.payload ==> b.payload) && (b.root ==> a == b)
  }

  predicate SameEdge(a: Edge, b: Edge) {
    a.(payload := b.payload) == b && (a.payload ==> b.payload)
  }

  predicate Bare(p: Packet) {
    && (forall k :: 0 <= k < |p.nodes| ==> !Heavy(p.nodes[k]))
    && (forall k :: 0 <= k < |p.edges| ==> !p.edges[k].payload)
  }

  /** The surviving nodes are the first ones of the sorted list, and roots are as they were. */
  ghost predicate NodesOk(start: Packet, p: Packet) {
    && |p.nodes| <= |start.nodes|
    && (forall k :: 0 <= k < |p.nodes| ==> SameNode(p.nodes[k], start.nodes[k]))
    && (forall k :: |p.nodes| <= k < |start.nodes| ==> !start.nodes[k].root)
  }

  /** Details went from far to near. */
  ghost predicate FarFirst(start: Packet, p: Packet)
    requires |p.nodes| <= |start.nodes|
  {
    forall i, j ::
      0 <= i < |p.nodes| && 0 <= j < |p.nodes| &&
      Heavy(start.nodes[i]) && !p.nodes[i].payload && Heavy(p.nodes[j]) ==>
      Nearer(p.nodes[j], p.nodes[i])
  }

  ghost predicate EdgesOk(start: Packet, p: Packet) {
    var kept := if |p.nodes| == |start.nodes| then start.edges else Within(start.edges, NodeIds(p.nodes));
    && |p.edges| == |kept|
    && (forall k :: 0 <= k < |kept| ==> SameEdge(p.edges[k], kept[k]))
  }

  ghost predicate Stage(start: Packet, p: Packet) {
    && NodesOk(start, p) && FarFirst(start, p) && EdgesOk(start, p)
    && (|p.nodes| < |start.nodes| ==> Bare(p))
    && ((exists k ::
           0 <= k < |p.edges| && |p.nodes| == |start.nodes| && |p.edges| == |start.edges| &&
           p.edges[k] != start.edges[k]) ==>
         forall k :: 0 <= k < |p.nodes| ==> !Heavy(p.nodes[k]))
  }

  lemma {:induction false} WithinTwice(edges: seq<Edge>, big: set<nat>, small: set<nat>)
    requires small <= big
    ensures Within(Within(edges, big), small) == Within(edges, small)
  {
    if edges != [] {
      WithinTwice(edges[1..], big, small);
      if edges[0].source in big && edges[0].target in big {
        assert Within(edges, big)[1..] == Within(edges[1..], big);
      } else {
        assert Within(edges, big) == Within(edges[1..], big);
      }
    }
  }

  lemma {:induction false} WithinSame(bare: seq<Edge>, edges: seq<Edge>, ids: set<nat>)
    requires |bare| == |edges| && forall k :: 0 <= k < |edges| ==> SameEdge(bare[k], edges[k])
    ensures |Within(bare, ids)| == |Within(edges, ids)|
    ensures forall k :: 0 <= k < |Within(edges, ids)| ==> SameEdge(Within(bare, ids)[k], Within(edges, ids)[k])
    ensures (forall k :: 0 <= k < |bare| ==> !bare[k].payload) ==> forall k :: 0 <= k < |Within(bare, ids)| ==>
            !Within(bare, ids)[k].payload
  {
    if edges != [] { WithinSame(bare[1..], edges[1..], ids); }
  }

  lemma {:induction false} WithinCloses(edges: seq<Edge>, ids: set<nat>)
    ensures forall k :: 0 <= k < |Within(edges, ids)| ==>
            Within(edges, ids)[k].source in ids && Within(edges, ids)[k].target in ids
  {
    if edges != [] { WithinCloses(edges[1..], ids); }
  }

  /** The last node that is no root is the last node. */
  lemma LastOtherIsLast(start: Packet, p: Packet)
    requires RootsFirst(start.nodes) && NodesOk(start, p) && LastOther(p.nodes) < |p.nodes|
    ensures LastOther(p.nodes) == |p.nodes| - 1 && !start.nodes[|p.nodes| - 1].root
  {
    var other, n := LastOther(p.nodes), |p.nodes| - 1;
    assert SameNode(p.nodes[other], start.nodes[other]) && SameNode(p.nodes[n], start.nodes[n]);
  }

  lemma EdgesAfterCut(start: Packet, p: Packet)
    requires EdgesOk(start, p) && 0 < |p.nodes| <= |start.nodes|
    ensures var nodes := p.nodes[..|p.nodes| - 1];
            EdgesOk(start, Packet(nodes, Within(p.edges, NodeIds(nodes))))
  {
    var nodes := p.nodes[..|p.nodes| - 1];
    var kept := if |p.nodes| == |start.nodes| then start.edges else Within(start.edges, NodeIds(p.nodes));
    WithinSame(p.edges, kept, NodeIds(nodes));
    if |p.nodes| < |start.nodes| { WithinTwice(start.edges, NodeIds(p.nodes), NodeIds(nodes)); }
  }

  lemma NodeCutKeeps(start: Packet, p: Packet)
    requires RootsFirst(start.nodes) && Stage(start, p) && Bare(p) && LastOther(p.nodes) < |p.nodes|
    ensures Stage(start, Cut(p))
  {
    var n := |p.nodes| - 1;
    LastOtherIsLast(start, p);
    var nodes := p.nodes[..n];
    assert p.nodes[..n] + p.nodes[n + 1..] == nodes;
    EdgesAfterCut(start, p);
    WithinSame(p.edges, p.edges, NodeIds(nodes));
    assert Bare(Cut(p));
  }

  lemma DetailCutKeeps(start: Packet, p: Packet)
    requires Stage(start, p) && Farthest(p.nodes) < |p.nodes|
    ensures Stage(start, Cut(p))
  {
    var far := Farthest(p.nodes);
    var q := Cut(p);
    assert !Bare(p);
    forall i, j | 0 <= i < |q.nodes| && 0 <= j < |q.nodes| && Heavy(start.nodes[i]) && !q.nodes[i].payload
      && Heavy(q.nodes[j])
      ensures Nearer(q.nodes[j], q.nodes[i])
    {
      assert Heavy(p.nodes[j]);
      if i != far { assert !p.nodes[i].payload; }
    }
  }

  lemma EdgeCutKeeps(start: Packet, p: Packet)
    requires Stage(start, p) && Farthest(p.nodes) == |p.nodes| && LastDetailed(p.edges) < |p.edges|
    ensures Stage(start, Cut(p))
  {
    assert !Bare(p);
  }

  lemma CutKeeps(start: Packet, p: Packet)
    requires RootsFirst(start.nodes) && Stage(start, p)
    ensures Stage(start, Cut(p))
  {
    if Farthest(p.nodes) < |p.nodes| {
      DetailCutKeeps(start, p);
    } else if LastDetailed(p.edges) < |p.edges| {
      EdgeCutKeeps(start, p);
    } else if LastOther(p.nodes) < |p.nodes| {
      NodeCutKeeps(start, p);
    }
  }

  lemma {:induction false} ReduceKeeps(size: Packet -> nat, cap: nat, start: Packet, p: Packet)
    requires RootsFirst(start.nodes) && Stage(start, p)
    ensures Stage(start, Reduce(size, cap, p))
    ensures size(Reduce(size, cap, p)) <= cap || Cut(Reduce(size, cap, p)) == Reduce(size, cap, p)
    decreases |p.nodes|, Details(p.nodes), EdgeDetails(p.edges)
  {
    if size(p) > cap && Cut(p) != p {
      CutShrinks(p);
      CutKeeps(start, p);
      ReduceKeeps(size, cap, start, Cut(p));
    }
  }

  // ----------------------------------------------------------- main results

  /** What a reduced packet is: a first part of the sorted records with the roots untouched,
      details dropped from the farthest record on, no record dropped while a droppable detail
      was left, and the edges exactly those of the original between surviving nodes once a
      node is gone. */
  lemma ReducedIs(size: Packet -> nat, cap: nat, start: Packet)
    requires RootsFirst(start.nodes)
    ensures Stage(start, Reduce(size, cap, start))
  {
    forall i | 0 <= i < |start.nodes| ensures SameNode(start.nodes[i], start.nodes[i]) {}
    ReduceKeeps(size, cap, start, start);
  }

  /** A node that has lost its details is no nearer than one that still has details to lose. */
  lemma DetailsGoFarthestFirst(size: Packet -> nat, cap: nat, start: Packet, i: nat, j: nat)
    requires RootsFirst(start.nodes)
    requires var p := Reduce(size, cap, start);
             && i < |p.nodes| && j < |p.nodes| && i < |start.nodes|
             && start.nodes[i].payload && !p.nodes[i].payload && p.nodes[j].payload && !p.nodes[j].root
    ensures var p := Reduce(size, cap, start);
            p.nodes[j].hops < p.nodes[i].hops || (p.nodes[j].hops == p.nodes[i].hops && p.nodes[j].id <= p.nodes[i].id)
  {
    ReducedIs(size, cap, start);
    assert SameNode(Reduce(size, cap, start).nodes[i], start.nodes[i]);
  }

  lemma {:induction false} WithinExactly(edges: seq<Edge>, ids: set<nat>, e: Edge)
    ensures e in Within(edges, ids) <==> e in edges && e.source in ids && e.target in ids
  {
    if edges != [] {
      assert edges == [edges[0]] + edges[1..];
      WithinExactly(edges[1..], ids, e);
    }
  }

  /** Once a node is gone, an edge is still there exactly when nodes with both its ends are. */
  lemma EdgeSurvivesExactlyWhen(size: Packet -> nat, cap: nat, start: Packet, e: Edge)
    requires RootsFirst(start.nodes) && e in start.edges
    requires |Reduce(size, cap, start).nodes| < |start.nodes|
    ensures var p := Reduce(size, cap, start);
            (exists x :: x in p.edges && x.(payload := e.payload) == e) <==>
              (exists n :: n in p.nodes && n.id == e.source) && (exists n :: n in p.nodes && n.id == e.target)
  {
    ReducedIs(size, cap, start);
    var p := Reduce(size, cap, start);
    var kept := Within(start.edges, NodeIds(p.nodes));
    WithinExactly(start.edges, NodeIds(p.nodes), e);
    if e in kept {
      var k :| 0 <= k < |kept| && kept[k] == e;
      assert SameEdge(p.edges[k], e);
    }
    if x :| x in p.edges && x.(payload := e.payload) == e {
      var k :| 0 <= k < |p.edges| && p.edges[k] == x;
      assert SameEdge(x, kept[k]);
      WithinExactly(start.edges, NodeIds(p.nodes), kept[k]);
    }
    HasId(p.nodes, e.source);
    HasId(p.nodes, e.target);
  }

  lemma HasId(nodes: seq<Node>, id: nat)
    ensures id in NodeIds(nodes) <==> exists n :: n in nodes && n.id == id
  {
    if n :| n in nodes && n.id == id { var k :| 0 <= k < |nodes| && nodes[k] == n; }
  }

  /** It fits, unless only the roots and edges without details are left. */
  lemma ReducedFits(size: Packet -> nat, cap: nat, start: Packet)
    requires RootsFirst(start.nodes)
    ensures var p := Reduce(size, cap, start);
            || size(p) <= cap
            || ((forall k :: 0 <= k < |p.nodes| ==> p.nodes[k].root) && forall k :: 0 <= k < |p.edges| ==>
               !p.edges[k].payload)
  {
    ReduceKeeps(size, cap, start, start);
    var p := Reduce(size, cap, start);
    if size(p) > cap { NothingToCut(p); }
  }

  /** What a cut leaves as it is has nothing to cut. */
  lemma NothingToCut(p: Packet)
    ensures Cut(p) == p <==>
      Farthest(p.nodes) == |p.nodes| && LastDetailed(p.edges) == |p.edges| && LastOther(p.nodes) == |p.nodes|
  {
    var far, detailed := Farthest(p.nodes), LastDetailed(p.edges);
    if far < |p.nodes| {
      DetailsDrop(p.nodes, far);
    } else if detailed < |p.edges| {
      EdgeDetailsDrop(p.edges, detailed);
    }
  }

  ghost predicate Closed(p: Packet) {
    forall k :: 0 <= k < |p.edges| ==> p.edges[k].source in NodeIds(p.nodes) && p.edges[k].target in NodeIds(p.nodes)
  }

  /** An edge never outlives its ends. */
  lemma ReducedIsClosed(size: Packet -> nat, cap: nat, start: Packet)
    requires RootsFirst(start.nodes) && Closed(start)
    ensures Closed(Reduce(size, cap, start))
  {
    ReducedIs(size, cap, start);
    var p := Reduce(size, cap, start);
    var kept := if |p.nodes| == |start.nodes| then start.edges else Within(start.edges, NodeIds(p.nodes));
    WithinCloses(start.edges, NodeIds(p.nodes));
    if |p.nodes| == |start.nodes| {
      forall id | id in NodeIds(start.nodes) ensures id in NodeIds(p.nodes) {
        var k :| 0 <= k < |start.nodes| && start.nodes[k].id == id;
        assert p.nodes[k].id == id;
      }
    }
    forall k | 0 <= k < |p.edges|
      ensures p.edges[k].source in NodeIds(p.nodes) && p.edges[k].target in NodeIds(p.nodes) {
      assert SameEdge(p.edges[k], kept[k]);
    }
  }

  // -------------------------------------------------------------- references

  lemma {:induction false} NumberedAt(nodes: seq<Node>, from: nat, k: nat)
    requires k < |nodes|
    ensures |NumberNodes(nodes, from)| == |nodes|
    ensures NumberNodes(nodes, from)[k] == nodes[k].(reference := from + k)
  {
    if |nodes| > 1 { NumberedAt(nodes[1..], from + 1, if k == 0 then 0 else k - 1); }
  }

  lemma {:induction false} EdgeNumberedAt(edges: seq<Edge>, from: nat, k: nat)
    requires k < |edges|
    ensures |NumberEdges(edges, from)| == |edges|
    ensures NumberEdges(edges, from)[k] == edges[k].(reference := from + k)
  {
    if |edges| > 1 { EdgeNumberedAt(edges[1..], from + 1, if k == 0 then 0 else k - 1); }
  }

  lemma AssembledRootsFirst(nodes: seq<Node>, edges: seq<Edge>)
    ensures RootsFirst(Assemble(nodes, edges).nodes)
  {
    var sorted := Sort(NodeLeq, nodes);
    SortSorts(NodeLeq, nodes);
    forall i, j | 0 <= i < j < |NumberNodes(sorted, 1)| && NumberNodes(sorted, 1)[j].root
      ensures NumberNodes(sorted, 1)[i].root {
      if sorted == [] { assert false; }
      NumberedAt(sorted, 1, 0);
      NumberedAt(sorted, 1, i);
      NumberedAt(sorted, 1, j);
    }
  }

  /** The order of the packet: roots first, then nearer nodes, then smaller ids. */
  lemma AssembledOrder(nodes: seq<Node>, edges: seq<Edge>, i: nat, j: nat)
    requires i < j < |nodes|
    ensures multiset(Sort(NodeLeq, nodes)) == multiset(nodes)
    ensures |Sort(NodeLeq, nodes)| == |nodes|
    ensures var a, b := Sort(NodeLeq, nodes)[i], Sort(NodeLeq, nodes)[j];
            && (b.root ==> a.root)
            && (a.root == b.root ==> a.hops <= b.hops)
            && (a.root == b.root && a.hops == b.hops ==> a.id <= b.id)
  {
    SortSorts(NodeLeq, nodes);
  }

  /** For any records, a node that survives keeps the reference of its place in the full sorted
      order, whatever was cut. */
  lemma SurvivorsKeepReferences(size: Packet -> nat, cap: nat, nodes: seq<Node>, edges: seq<Edge>, k: nat)
    requires k < |Reduce(size, cap, Assemble(nodes, edges)).nodes|
    ensures k < |nodes| == |Sort(NodeLeq, nodes)|
    ensures var n := Reduce(size, cap, Assemble(nodes, edges)).nodes[k];
            var was := Sort(NodeLeq, nodes)[k];
            && n.reference == k + 1 && n.id == was.id && n.root == was.root && n.hops == was.hops
            && (n.payload ==> was.payload) && (was.root ==> n.payload == was.payload)
  {
    AssembledRootsFirst(nodes, edges);
    ReducedIs(size, cap, Assemble(nodes, edges));
    var sorted := Sort(NodeLeq, nodes);
    SortSorts(NodeLeq, nodes);
    if sorted != [] { NumberedAt(sorted, 1, if k < |sorted| then k else 0); }
    assert SameNode(Reduce(size, cap, Assemble(nodes, edges)).nodes[k], Assemble(nodes, edges).nodes[k]);
  }

  ghost predicate ReferencesRise(edges: seq<Edge>) {
    forall i, j :: 0 <= i < j < |edges| ==> edges[i].reference < edges[j].reference
  }

  lemma {:induction false} WithinAre(edges: seq<Edge>, ids: set<nat>, e: Edge)
    requires e in Within(edges, ids)
    ensures e in edges
  {
    if e in Within(edges[1..], ids) { WithinAre(edges[1..], ids, e); }
  }

  lemma RiseFrom(e: Edge, rest: seq<Edge>)
    requires ReferencesRise(rest) && forall x :: x in rest ==> e.reference < x.reference
    ensures ReferencesRise([e] + rest)
  {
    var all := [e] + rest;
    forall i, j | 0 <= i < j < |all| ensures all[i].reference < all[j].reference {
      assert all[j] == rest[j - 1] && (i > 0 ==> all[i] == rest[i - 1]);
    }
  }

  lemma RestRises(edges: seq<Edge>)
    requires ReferencesRise(edges) && edges != []
    ensures ReferencesRise(edges[1..]) && forall x :: x in edges[1..] ==> edges[0].reference < x.reference
  {
    assert forall i :: 0 <= i < |edges| - 1 ==> edges[1..][i] == edges[i + 1];
  }

  lemma {:induction false} WithinRises(edges: seq<Edge>, ids: set<nat>)
    requires ReferencesRise(edges)
    ensures ReferencesRise(Within(edges, ids))
  {
    if edges != [] {
      RestRises(edges);
      WithinRises(edges[1..], ids);
      var rest := Within(edges[1..], ids);
      if edges[0].source in ids && edges[0].target in ids {
        forall x | x in rest ensures edges[0].reference < x.reference { WithinAre(edges[1..], ids, x); }
        RiseFrom(edges[0], rest);
      } else {
        assert Within(edges, ids) == rest;
      }
    }
  }

  /** The edges before the first cut: by id, counted from 1. */
  lemma AssembledEdges(nodes: seq<Node>, edges: seq<Edge>)
    ensures var out := Assemble(nodes, edges).edges;
            && |out| == |edges| == |Sort(EdgeLeq, edges)|
            && (forall j :: 0 <= j < |out| ==> out[j] == Sort(EdgeLeq, edges)[j].(reference := j + 1))
            && ReferencesRise(out) && forall i, j :: 0 <= i < j < |out| ==> out[i].id <= out[j].id
  {
    var sorted := Sort(EdgeLeq, edges);
    SortSorts(EdgeLeq, edges);
    if sorted != [] { EdgeNumberedAt(sorted, 1, 0); }
    forall j | 0 <= j < |sorted| ensures NumberEdges(sorted, 1)[j] == sorted[j].(reference := j + 1) {
      EdgeNumberedAt(sorted, 1, j);
    }
  }

  /** An edge that survives keeps the reference of its place `j` among all edges in the order of
      their ids, and everything else but perhaps its details. */
  lemma SurvivingEdgesKeepReferences(size: Packet -> nat, cap: nat, nodes: seq<Node>, edges: seq<Edge>,
                                     k: nat) returns (j: nat)
    requires k < |Reduce(size, cap, Assemble(nodes, edges)).edges|
    ensures multiset(Sort(EdgeLeq, edges)) == multiset(edges)
    ensures j < |edges| == |Sort(EdgeLeq, edges)|
    ensures var e, was := Reduce(size, cap, Assemble(nodes, edges)).edges[k], Sort(EdgeLeq, edges)[j];
            && e.reference == j + 1 && e.id == was.id && e.source == was.source && e.target == was.target
            && (e.payload ==> was.payload)
  {
    var start := Assemble(nodes, edges);
    var p := Reduce(size, cap, start);
    SortSorts(EdgeLeq, edges);
    AssembledEdges(nodes, edges);
    AssembledRootsFirst(nodes, edges);
    ReducedIs(size, cap, start);
    var kept := if |p.nodes| == |start.nodes| then start.edges else Within(start.edges, NodeIds(p.nodes));
    assert SameEdge(p.edges[k], kept[k]);
    if |p.nodes| < |start.nodes| { WithinAre(start.edges, NodeIds(p.nodes), kept[k]); }
    j :| 0 <= j < |start.edges| && start.edges[j] == kept[k];
  }

  lemma SameReferences(bare: seq<Edge>, kept: seq<Edge>, i: nat, k: nat)
    requires |bare| == |kept| && i < k < |kept| && SameEdge(bare[i], kept[i]) && SameEdge(bare[k], kept[k])
    requires ReferencesRise(kept)
    ensures bare[i].reference < bare[k].reference
  {
  }

  lemma KeptRises(size: Packet -> nat, cap: nat, nodes: seq<Node>, edges: seq<Edge>, i: nat, k: nat)
    requires i < k < |Reduce(size, cap, Assemble(nodes, edges)).edges|
    ensures var p := Reduce(size, cap, Assemble(nodes, edges)); p.edges[i].reference < p.edges[k].reference
  {
    var start := Assemble(nodes, edges);
    var p := Reduce(size, cap, start);
    AssembledEdges(nodes, edges);
    AssembledRootsFirst(nodes, edges);
    ReducedIs(size, cap, start);
    WithinRises(start.edges, NodeIds(p.nodes));
    var kept := if |p.nodes| == |start.nodes| then start.edges else Within(start.edges, NodeIds(p.nodes));
    SameReferences(p.edges, kept, i, k);
  }

  /** No two edges have one reference, and references rise with the ids. */
  lemma EdgeReferencesRise(size: Packet -> nat, cap: nat, nodes: seq<Node>, edges: seq<Edge>, i: nat, k: nat)
    requires i < k < |Reduce(size, cap, Assemble(nodes, edges)).edges|
    ensures var p := Reduce(size, cap, Assemble(nodes, edges));
            p.edges[i].reference < p.edges[k].reference && p.edges[i].id <= p.edges[k].id
  {
    KeptRises(size, cap, nodes, edges, i, k);
    var x := SurvivingEdgesKeepReferences(size, cap, nodes, edges, i);
    var y := SurvivingEdgesKeepReferences(size, cap, nodes, edges, k);
    SortSorts(EdgeLeq, edges);
    assert EdgeLeq(Sort(EdgeLeq, edges)[x], Sort(EdgeLeq, edges)[y]);
  }
}
