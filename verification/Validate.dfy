/** The check of a model-written neighborhood brief, and its merge with the host-owned parts. */
module Validate {
  import opened Wrappers
  import opened References

  datatype Result<+T> = Ok(value: T) | Err(fault: Fault)

  datatype Fault =
    | TooManyItems | ItemLength | UnknownReference | NoBasis | LeadAsFact | Unattributed
    | Unfounded | Unsound | NoContent | TooLong | ContradictionLost

  datatype Block = OverviewBlock | ConnectionsBlock | InterpretationBlock | LimitsBlock

  datatype RawItem = RawItem(text: string, basis: seq<string>)

  datatype RawBrief = RawBrief(overview: seq<RawItem>, connections: seq<RawItem>, interpretation: seq<RawItem>,
      limits: seq<RawItem>)

  datatype PacketNode = PacketNode(reference: string, id: string, inference: bool)

  datatype PacketEdge = PacketEdge(reference: string, id: string, source: string, target: string, related: bool,
      contradicts: bool)

  datatype Packet = Packet(nodes: seq<PacketNode>, edges: seq<PacketEdge>)

  /** What the check reads off a text: `tidy` collapses white space, `canonical` normalizes a
      written reference, `sound` stands for the assertion, number, quotation and direction
      checks, and `demands` and `meets` for the words a required caveat must carry. */
  datatype Wording = Wording(
    tidy: string -> string,
    words: string -> nat,
    canonical: string -> string,
    hedged: string -> bool,
    attributed: string -> bool,
    sound: (string, seq<PacketNode>, seq<PacketEdge>) -> bool,
    demands: string -> bool,
    meets: (string, string) -> bool)

  const MIN_ITEM_WORDS: nat := 4
  const MAX_ITEM_WORDS: nat := 75
  const MAX_WORDS: nat := 260

  // ------------------------------------------------------------ one raw item

  function FindNode(nodes: seq<PacketNode>, reference: string): (r: Option<PacketNode>)
    ensures r.Some? ==> r.value in nodes && r.value.reference == reference
    ensures r.None? <==> forall n :: n in nodes ==> n.reference != reference
  {
    if nodes == [] then None
    else
      var before, last := FindNode(nodes[..|nodes| - 1], reference), nodes[|nodes| - 1];
      assert nodes == nodes[..|nodes| - 1] + [last];
      if before.Some? then before else if last.reference == reference then Some(last) else None
  }

  function FindEdge(edges: seq<PacketEdge>, reference: string): (r: Option<PacketEdge>)
    ensures r.Some? ==> r.value in edges && r.value.reference == reference
    ensures r.None? <==> forall e :: e in edges ==> e.reference != reference
  {
    if edges == [] then None
    else
      var before, last := FindEdge(edges[..|edges| - 1], reference), edges[|edges| - 1];
      assert edges == edges[..|edges| - 1] + [last];
      if before.Some? then before else if last.reference == reference then Some(last) else None
  }

  /** The nodes a basis names, in order.  A reference is looked for among the nodes first. */
  function NodesCited(p: Packet, w: Wording, basis: seq<string>): seq<PacketNode> {
    if basis == [] then []
    else
      var n := FindNode(p.nodes, w.canonical(basis[|basis| - 1]));
      NodesCited(p, w, basis[..|basis| - 1]) + if n.Some? then [n.value] else []
  }

  function EdgesCited(p: Packet, w: Wording, basis: seq<string>): seq<PacketEdge> {
    if basis == [] then []
    else
      var key := w.canonical(basis[|basis| - 1]);
      var e := FindEdge(p.edges, key);
      EdgesCited(p, w, basis[..|basis| - 1]) + if FindNode(p.nodes, key).None? && e.Some? then [e.value] else []
  }

  predicate Resolves(p: Packet, w: Wording, written: string) {
    FindNode(p.nodes, w.canonical(written)).Some? || FindEdge(p.edges, w.canonical(written)).Some?
  }

  predicate AnyInference(nodes: seq<PacketNode>) { exists i :: 0 <= i < |nodes| && nodes[i].inference }

  predicate AnyRelated(edges: seq<PacketEdge>) { exists i :: 0 <= i < |edges| && edges[i].related }

  function NodeIds(nodes: seq<PacketNode>): seq<string> {
    if nodes == [] then [] else NodeIds(nodes[..|nodes| - 1]) + [nodes[|nodes| - 1].id]
  }

  function EdgeIds(edges: seq<PacketEdge>): seq<string> {
    if edges == [] then [] else EdgeIds(edges[..|edges| - 1]) + [edges[|edges| - 1].id]
  }

  /** The class of a statement that rests on these records. */
  function ClassOf(related: bool, inferred: bool, cites: bool): Epistemic {
    if related then Tentative else if inferred then StoredInference else if cites then Recorded else Coverage
  }

  /** What every accepted item meets. */
  predicate Acceptable(p: Packet, w: Wording, block: Block, raw: RawItem) {
    var text, nodes, edges := w.tidy(raw.text), NodesCited(p, w, raw.basis), EdgesCited(p, w, raw.basis);
    && MIN_ITEM_WORDS <= w.words(text) <= MAX_ITEM_WORDS
    && (block.LimitsBlock? || nodes != [] || edges != [])
    && (AnyRelated(edges) ==> w.hedged(text))
    && (AnyInference(nodes) && !AnyRelated(edges) ==> w.attributed(text))
    && (block.InterpretationBlock? ==> AnyInference(nodes) || AnyRelated(edges))
    && w.sound(text, nodes, edges)
  }

  function ItemOf(p: Packet, w: Wording, raw: RawItem): Item {
    var nodes, edges := NodesCited(p, w, raw.basis), EdgesCited(p, w, raw.basis);
    Item(w.tidy(raw.text), ClassOf(AnyRelated(edges), AnyInference(nodes), nodes != [] || edges != []), NodeIds(nodes),
      EdgeIds(edges), [])
  }

  method Resolve(p: Packet, w: Wording, basis: seq<string>) returns (nodes: seq<PacketNode>,
      edges: seq<PacketEdge>, unknown: seq<string>)
    ensures nodes == NodesCited(p, w, basis) && edges == EdgesCited(p, w, basis)
    ensures unknown == [] <==> forall b :: b in basis ==> Resolves(p, w, b)
  {
    nodes, edges, unknown := [], [], [];
    for i := 0 to |basis|
      invariant nodes == NodesCited(p, w, basis[..i]) && edges == EdgesCited(p, w, basis[..i])
      invariant unknown == [] <==> forall k :: 0 <= k < i ==> Resolves(p, w, basis[k])
    {
      assert basis[..i + 1][..i] == basis[..i];
      var n := FindNode(p.nodes, w.canonical(basis[i]));
      var e := FindEdge(p.edges, w.canonical(basis[i]));
      if n.Some? {
        nodes := nodes + [n.value];
      } else if e.Some? {
        edges := edges + [e.value];
      } else {
        unknown := unknown + [basis[i]];
      }
    }
    assert basis[..|basis|] == basis;
  }

  method ConvertOne(p: Packet, w: Wording, block: Block, raw: RawItem) returns (r: Result<Item>)
    ensures r.Ok? <==> Acceptable(p, w, block, raw)
    ensures r.Ok? ==> r.value == ItemOf(p, w, raw)
    ensures r == Err(ItemLength) <==> !(4 <= w.words(w.tidy(raw.text)) <= 75)
    ensures var cites := NodesCited(p, w, raw.basis) != [] || EdgesCited(p, w, raw.basis) != [];
            && (r in {Err(UnknownReference), Err(NoBasis)} <==>
                  4 <= w.words(w.tidy(raw.text)) <= 75 && block != LimitsBlock && !cites)
            && (r == Err(UnknownReference) ==> raw.basis != []) && (r == Err(NoBasis) ==> raw.basis == [])
  {
    CitesNothing(p, w, raw.basis);
    assert raw.basis != [] ==> raw.basis[0] in raw.basis;
    var text := w.tidy(raw.text);
    if w.words(text) < MIN_ITEM_WORDS || w.words(text) > MAX_ITEM_WORDS { return Err(ItemLength); }
    var nodes, edges, unknown := Resolve(p, w, raw.basis);
    var citedNothing := nodes == [] && edges == [];
    if unknown != [] && !block.LimitsBlock? && citedNothing { return Err(UnknownReference); }
    if !block.LimitsBlock? && citedNothing { return Err(NoBasis); }
    var epistemic;
    if AnyRelated(edges) {
      if !w.hedged(text) { return Err(LeadAsFact); }
      epistemic := Tentative;
    } else if AnyInference(nodes) {
      if !w.attributed(text) { return Err(Unattributed); }
      epistemic := StoredInference;
    } else if citedNothing {
      epistemic := Coverage;
    } else {
      epistemic := Recorded;
    }
    if block.InterpretationBlock? && epistemic != StoredInference && epistemic != Tentative { return Err(Unfounded); }
    if !w.sound(text, nodes, edges) { return Err(Unsound); }
    r := Ok(Item(text, epistemic, NodeIds(nodes), EdgeIds(edges), []));
  }

  /** The cited records are exactly those that some written reference names, a node before an
      edge. */
  lemma {:induction false} CitedExactlyWhen(p: Packet, w: Wording, basis: seq<string>, n: PacketNode, e: PacketEdge)
    ensures n in NodesCited(p, w, basis) <==> exists b :: b in basis && FindNode(p.nodes, w.canonical(b)) == Some(n)
    ensures e in EdgesCited(p, w, basis) <==>
      exists b :: b in basis && FindNode(p.nodes, w.canonical(b)).None? && FindEdge(p.edges, w.canonical(b)) == Some(e)
  {
    if basis != [] {
      assert basis == basis[..|basis| - 1] + [basis[|basis| - 1]];
      CitedExactlyWhen(p, w, basis[..|basis| - 1], n, e);
    }
  }

  /** Of two records with one reference the first is meant. */
  lemma {:induction false} FirstIsMeant(nodes: seq<PacketNode>, edges: seq<PacketEdge>, reference: string, i: nat)
    ensures i < |nodes| && nodes[i].reference == reference
            && (forall j :: 0 <= j < i ==> nodes[j].reference != reference)
            ==> FindNode(nodes, reference) == Some(nodes[i])
    ensures i < |edges| && edges[i].reference == reference
            && (forall j :: 0 <= j < i ==> edges[j].reference != reference)
            ==> FindEdge(edges, reference) == Some(edges[i])
    decreases |nodes| + |edges|
  {
    if nodes != [] && i < |nodes| - 1 { FirstIsMeant(nodes[..|nodes| - 1], [], reference, i); }
    if edges != [] && i < |edges| - 1 { FirstIsMeant([], edges[..|edges| - 1], reference, i); }
  }

  /** What is accepted, and the class it has. */
  lemma AcceptableExactlyWhen(p: Packet, w: Wording, block: Block, raw: RawItem)
    ensures var nodes, edges, text := NodesCited(p, w, raw.basis), EdgesCited(p, w, raw.basis), w.tidy(raw.text);
            var related, inferred := exists e :: e in edges && e.related, exists n :: n in nodes && n.inference;
            var it := ItemOf(p, w, raw);
            && (Acceptable(p, w, block, raw) <==>
                  && 4 <= w.words(text) <= 75
                  && (nodes == [] && edges == [] ==> block == LimitsBlock)
                  && (related ==> w.hedged(text))
                  && (inferred && !related ==> w.attributed(text))
                  && (block == InterpretationBlock ==> related || inferred)
                  && w.sound(text, nodes, edges))
            && it.text == text
            && (it.epistemic == Tentative <==> related)
            && (it.epistemic == StoredInference <==> inferred && !related)
            && (it.epistemic == Coverage <==> nodes == [] && edges == [])
  {
    AnyAre(NodesCited(p, w, raw.basis), EdgesCited(p, w, raw.basis));
  }

  /** Nothing is cited exactly when no written reference is one of the packet's. */
  lemma {:induction false} CitesNothing(p: Packet, w: Wording, basis: seq<string>)
    ensures NodesCited(p, w, basis) == [] && EdgesCited(p, w, basis) == [] <==>
            forall b :: b in basis ==> !Resolves(p, w, b)
  {
    if basis != [] {
      var front, last := basis[..|basis| - 1], basis[|basis| - 1];
      assert basis == front + [last];
      CitesNothing(p, w, front);
      assert Resolves(p, w, last) ==> NodesCited(p, w, basis) != [] || EdgesCited(p, w, basis) != [];
      assert last in basis;
    }
  }

  lemma AnyAre(nodes: seq<PacketNode>, edges: seq<PacketEdge>)
    ensures AnyRelated(edges) <==> exists e :: e in edges && e.related
    ensures AnyInference(nodes) <==> exists n :: n in nodes && n.inference
  {
    if e :| e in edges && e.related { var i :| 0 <= i < |edges| && edges[i] == e; }
    if n :| n in nodes && n.inference { var i :| 0 <= i < |nodes| && nodes[i] == n; }
  }

  // -------------------------------------------------------------- one block

  /** Items whose text is blank are passed over. */
  function Written(w: Wording, raws: seq<RawItem>): seq<RawItem> {
    if raws == [] then []
    else Written(w, raws[..|raws| - 1]) + if w.tidy(raws[|raws| - 1].text) == "" then [] else [raws[|raws| - 1]]
  }

  function ItemsOf(p: Packet, w: Wording, raws: seq<RawItem>): (r: seq<Item>)
    ensures |r| == |raws|
    ensures forall i :: 0 <= i < |raws| ==> r[i] == ItemOf(p, w, raws[i])
  {
    if raws == [] then [] else ItemsOf(p, w, raws[..|raws| - 1]) + [ItemOf(p, w, raws[|raws| - 1])]
  }

  function WordsOf(w: Wording, raws: seq<RawItem>): nat {
    if raws == [] then 0 else WordsOf(w, raws[..|raws| - 1]) + w.words(w.tidy(raws[|raws| - 1].text))
  }

  ghost predicate AllAcceptable(p: Packet, w: Wording, block: Block, raws: seq<RawItem>) {
    forall i :: 0 <= i < |raws| ==> Acceptable(p, w, block, raws[i])
  }

  /** Converts a block: every written item must be acceptable, and then all are kept. */
  method Convert(p: Packet, w: Wording, block: Block, raws: seq<RawItem>,
      sofar: nat) returns (r: Result<seq<Item>>, total: nat)
    ensures r.Ok? <==> AllAcceptable(p, w, block, Written(w, raws))
    ensures r.Ok? ==> r.value == ItemsOf(p, w, Written(w, raws)) && total == sofar + WordsOf(w, Written(w, raws))
  {
    var out := [];
    total := sofar;
    ghost var read := [];
    for i := 0 to |raws|
      invariant read == Written(w, raws[..i]) && AllAcceptable(p, w, block, read)
      invariant out == ItemsOf(p, w, read) && total == sofar + WordsOf(w, read)
    {
      var text := w.tidy(raws[i].text);
      WrittenNext(w, raws, i);
      if text == "" { continue; }
      var one := ConvertOne(p, w, block, raws[i]);
      if one.Err? {
        WrittenStays(w, raws, i);
        return Err(one.fault), total;
      }
      total := total + w.words(text);
      ItemsMore(p, w, block, read, raws[i]);
      read := read + [raws[i]];
      out := out + [one.value];
    }
    assert raws[..|raws|] == raws;
    r := Ok(out);
  }

  lemma ItemsMore(p: Packet, w: Wording, block: Block, raws: seq<RawItem>, raw: RawItem)
    ensures ItemsOf(p, w, raws + [raw]) == ItemsOf(p, w, raws) + [ItemOf(p, w, raw)]
    ensures WordsOf(w, raws + [raw]) == WordsOf(w, raws) + w.words(w.tidy(raw.text))
    ensures AllAcceptable(p, w, block, raws) && Acceptable(p, w, block, raw) ==>
            AllAcceptable(p, w, block, raws + [raw])
  {
    assert (raws + [raw])[..|raws|] == raws;
  }

  lemma WrittenNext(w: Wording, raws: seq<RawItem>, i: nat)
    requires i < |raws|
    ensures Written(w, raws[..i + 1]) == Written(w, raws[..i]) + if w.tidy(raws[i].text) == "" then [] else [raws[i]]
  {
    assert raws[..i + 1][..i] == raws[..i];
  }

  lemma {:induction false} WrittenStays(w: Wording, raws: seq<RawItem>, i: nat)
    requires i < |raws| && w.tidy(raws[i].text) != ""
    ensures raws[i] in Written(w, raws)
    decreases |raws|
  {
    if i < |raws| - 1 {
      WrittenStays(w, raws[..|raws| - 1], i);
    }
  }

  // ------------------------------------------------------ contradiction edges

  predicate Cites(items: seq<Item>, edge: string) {
    exists i :: 0 <= i < |items| && edge in items[i].edges
  }

  function FindCiting(items: seq<Item>, edge: string): (r: Option<Item>)
    ensures r.Some? ==> r.value in items && edge in r.value.edges
    ensures r.None? <==> !Cites(items, edge)
  {
    if items == [] then None
    else
      var before, last := FindCiting(items[..|items| - 1], edge), items[|items| - 1];
      CitesMore(items[..|items| - 1], last, edge);
      assert items == items[..|items| - 1] + [last];
      if before.Some? then before else if edge in last.edges then Some(last) else None
  }

  lemma CitesMore(items: seq<Item>, last: Item, edge: string)
    ensures Cites(items + [last], edge) <==> Cites(items, edge) || edge in last.edges
  {
    if Cites(items, edge) {
      var i :| 0 <= i < |items| && edge in items[i].edges;
      assert (items + [last])[i] == items[i];
    }
    if edge in last.edges { assert (items + [last])[|items|] == last; }
  }

  /** The first two recorded contradictions. */
  function Contradictions(edges: seq<PacketEdge>): (r: seq<string>)
    ensures |r| <= 2
  {
    if edges == [] then []
    else
      var before := Contradictions(edges[..|edges| - 1]);
      if edges[|edges| - 1].contradicts && |before| < 2 then before + [edges[|edges| - 1].id] else before
  }

  /** The connections after a contradiction was restored at their head. */
  function Restored(connections: seq<Item>, fallback: Item): seq<Item> {
    [fallback] + if |connections| >= 2 then connections[..|connections| - 1] else connections
  }

  /** One contradiction edge: cited already, restored, or impossible to show. */
  function PinOne(others: seq<Item>, connections: seq<Item>, fallback: seq<Item>, edge: string): Result<seq<Item>> {
    if Cites(others + connections, edge) then Ok(connections)
    else if FindCiting(fallback, edge).Some? then Ok(Restored(connections, FindCiting(fallback, edge).value))
    else Err(ContradictionLost)
  }

  function PinAll(others: seq<Item>, connections: seq<Item>, fallback: seq<Item>,
      edges: seq<string>): Result<seq<Item>> {
    if edges == [] then Ok(connections)
    else
      var before := PinAll(others, connections, fallback, edges[..|edges| - 1]);
      if before.Err? then before else PinOne(others, before.value, fallback, edges[|edges| - 1])
  }

  method Pin(overview: seq<Item>, connections: seq<Item>, interpretation: seq<Item>, fallback: seq<Item>,
      edges: seq<string>) returns (r: Result<seq<Item>>)
    ensures r == PinAll(overview + interpretation, connections, fallback, edges)
  {
    var shown := connections;
    for i := 0 to |edges|
      invariant PinAll(overview + interpretation, connections, fallback, edges[..i]) == Ok(shown)
    {
      assert edges[..i + 1][..i] == edges[..i];
      CitesJoin(overview + interpretation, shown, edges[i]);
      CitesJoin(overview, interpretation, edges[i]);
      if Cites(overview, edges[i]) || Cites(shown, edges[i]) || Cites(interpretation, edges[i]) { continue; }
      var fb := FindCiting(fallback, edges[i]);
      if fb.None? {
        FailureStays(overview + interpretation, connections, fallback, edges, i + 1);
        return Err(ContradictionLost);
      }
      if |shown| >= 2 { shown := shown[..|shown| - 1]; }
      shown := [fb.value] + shown;
    }
    assert edges[..|edges|] == edges;
    r := Ok(shown);
  }

  lemma {:induction false} FailureStays(others: seq<Item>, connections: seq<Item>, fallback: seq<Item>,
      edges: seq<string>, i: nat)
    requires i <= |edges| && PinAll(others, connections, fallback, edges[..i]) == Err(ContradictionLost)
    ensures PinAll(others, connections, fallback, edges) == Err(ContradictionLost)
    decreases |edges|
  {
    if i < |edges| {
      assert edges[..|edges| - 1][..i] == edges[..i];
      FailureStays(others, connections, fallback, edges[..|edges| - 1], i);
    } else {
      assert edges[..i] == edges;
    }
  }

  lemma CitesJoin(a: seq<Item>, b: seq<Item>, edge: string)
    ensures Cites(a + b, edge) <==> Cites(a, edge) || Cites(b, edge)
  {
    if Cites(a, edge) { var i :| 0 <= i < |a| && edge in a[i].edges; assert (a + b)[i] == a[i]; }
    if Cites(b, edge) { var i :| 0 <= i < |b| && edge in b[i].edges; assert (a + b)[|a| + i] == b[i]; }
  }

  // ------------------------------------------------------------- whole answer

  /** The caveat block: a demanded caveat that the answer does not carry replaces it, and an
      empty block takes the host's first caveat. */
  function Caveats(w: Wording, limits: seq<Item>, fallback: seq<Item>): seq<Item> {
    if fallback == [] then limits
    else if w.demands(fallback[0].text) && !w.meets(fallback[0].text, if limits == [] then "" else limits[0].text)
      then [fallback[0]]
    else if limits == [] then [fallback[0]]
    else limits
  }

  predicate WithinSchema(b: RawBrief) {
    |b.overview| <= 1 && |b.connections| <= 2 && |b.interpretation| <= 1 && |b.limits| <= 1
  }

  ghost predicate Passes(p: Packet, w: Wording, b: RawBrief) {
    && WithinSchema(b)
    && AllAcceptable(p, w, OverviewBlock, Written(w, b.overview))
    && AllAcceptable(p, w, ConnectionsBlock, Written(w, b.connections))
    && AllAcceptable(p, w, InterpretationBlock, Written(w, b.interpretation))
    && AllAcceptable(p, w, LimitsBlock, Written(w, b.limits))
    && (Written(w, b.connections) != [] || Written(w, b.interpretation) != [])
    && WordsOf(w, Written(w, b.overview)) + WordsOf(w, Written(w, b.connections))
       + WordsOf(w, Written(w, b.interpretation)) + WordsOf(w, Written(w, b.limits)) <= MAX_WORDS
  }

  /** The answer's own items. */
  function Own(p: Packet, w: Wording, b: RawBrief): Brief {
    var overview := ItemsOf(p, w, Written(w, b.overview));
    Brief(
      if overview == [] then None else Some(overview[0]),
      ItemsOf(p, w, Written(w, b.connections)),
      ItemsOf(p, w, Written(w, b.interpretation)),
      ItemsOf(p, w, Written(w, b.limits)), [])
  }

  /** The host's overview stands in for a missing one. */
  function OverviewOf(p: Packet, w: Wording, fallback: Brief, b: RawBrief): Option<Item> {
    if Own(p, w, b).overview.None? then fallback.overview else Own(p, w, b).overview
  }

  function Single<T>(o: Option<T>): seq<T> { if o.None? then [] else [o.value] }

  /** The connections that the answer ends with, when it passes. */
  function Shown(p: Packet, w: Wording, fallback: Brief, b: RawBrief): Result<seq<Item>> {
    PinAll(Single(OverviewOf(p, w, fallback, b)) + Own(p, w, b).interpretation,
           Own(p, w, b).connections, fallback.connections, Contradictions(p.edges))
  }

  /** The merged brief before numbering. */
  function Merged(p: Packet, w: Wording, fallback: Brief, b: RawBrief): Brief
    requires Shown(p, w, fallback, b).Ok?
  {
    Brief(OverviewOf(p, w, fallback, b), Shown(p, w, fallback, b).value, Own(p, w, b).interpretation,
          Caveats(w, Own(p, w, b).limits, fallback.limits), [])
  }

  function NodeIdSet(p: Packet): set<string> { set n | n in p.nodes :: n.id }

  function EdgeIdSet(p: Packet): set<string> { set e | e in p.edges :: e.id }

  /** The caveat block of the answer. */
  method KeepCaveat(w: Wording, limits: seq<Item>, fallback: seq<Item>) returns (caveats: seq<Item>)
    ensures caveats == Caveats(w, limits, fallback)
  {
    caveats := limits;
    if fallback != [] {
      var lead := if caveats == [] then "" else caveats[0].text;
      if w.demands(fallback[0].text) && !w.meets(fallback[0].text, lead) { caveats := [fallback[0]]; }
    }
    if caveats == [] && fallback != [] { caveats := [fallback[0]]; }
  }

  /** Converts the four blocks of an answer. */
  method ConvertAll(p: Packet, w: Wording, b: RawBrief) returns (r: Result<Brief>)
    requires WithinSchema(b)
    ensures r.Ok? <==> Passes(p, w, b)
    ensures r.Ok? ==> r.value == Own(p, w, b)
  {
    var overview, afterOverview := Convert(p, w, OverviewBlock, b.overview, 0);
    if overview.Err? { return Err(overview.fault); }
    var connections, afterConnections := Convert(p, w, ConnectionsBlock, b.connections, afterOverview);
    if connections.Err? { return Err(connections.fault); }
    var interpretation, afterInterpretation := Convert(p, w, InterpretationBlock, b.interpretation, afterConnections);
    if interpretation.Err? { return Err(interpretation.fault); }
    var limits, total := Convert(p, w, LimitsBlock, b.limits, afterInterpretation);
    if limits.Err? { return Err(limits.fault); }
    if connections.value == [] && interpretation.value == [] { return Err(NoContent); }
    if total > MAX_WORDS { return Err(TooLong); }
    r := Ok(Brief(if overview.value == [] then None
      else Some(overview.value[0]), connections.value, interpretation.value, limits.value, []));
  }

  lemma {:induction false} WrittenFewer(w: Wording, raws: seq<RawItem>)
    ensures |Written(w, raws)| <= |raws|
  {
    if raws != [] {
      WrittenFewer(w, raws[..|raws| - 1]);
    }
  }

  /** Checks an answer and merges it with the host-owned parts. */
  method ValidateGenerated(p: Packet, w: Wording, fallback: Brief, b: RawBrief) returns (r: Result<Brief>)
    ensures r.Ok? <==>
            && |b.overview| <= 1 && |b.connections| <= 2 && |b.interpretation| <= 1 && |b.limits| <= 1
            && AllAcceptable(p, w, OverviewBlock, Written(w, b.overview))
            && AllAcceptable(p, w, ConnectionsBlock, Written(w, b.connections))
            && AllAcceptable(p, w, InterpretationBlock, Written(w, b.interpretation))
            && AllAcceptable(p, w, LimitsBlock, Written(w, b.limits))
            && Written(w, b.connections) + Written(w, b.interpretation) != []
            && WordsOf(w, Written(w, b.overview)) + WordsOf(w, Written(w, b.connections))
               + WordsOf(w, Written(w, b.interpretation)) + WordsOf(w, Written(w, b.limits)) <= 260
            && Shown(p, w, fallback, b).Ok?
    ensures r.Ok? ==> IsNumbering(Known(NodeIdSet(p), EdgeIdSet(p)), Merged(p, w, fallback, b), r.value)
  {
    if |b.overview| > 1 || |b.connections| > 2 || |b.interpretation| > 1 || |b.limits| > 1 { return Err(TooManyItems); }
    var own := ConvertAll(p, w, b);
    if own.Err? { return own; }
    var overview := own.value.overview;
    if overview.None? { overview := fallback.overview; }
    var shown := Pin(Single(overview), own.value.connections, own.value.interpretation, fallback.connections,
      Contradictions(p.edges));
    if shown.Err? { return Err(shown.fault); }
    var caveats := KeepCaveat(w, own.value.limits, fallback.limits);
    var brief := Brief(overview, shown.value, own.value.interpretation, caveats, []);
    assert brief == Merged(p, w, fallback, b);
    var numbered := NumberReferences(Known(NodeIdSet(p), EdgeIdSet(p)), brief);
    r := Ok(numbered);
  }

  // --------------------------------------------- what an accepted answer has

  /** `out` is the accepted answer, as `ValidateGenerated` returns it. */
  ghost predicate Accepted(p: Packet, w: Wording, fallback: Brief, b: RawBrief, out: Brief) {
    && Passes(p, w, b)
    && Shown(p, w, fallback, b).Ok?
    && IsNumbering(Known(NodeIdSet(p), EdgeIdSet(p)), Merged(p, w, fallback, b), out)
  }

  lemma {:induction false} PinAllFits(others: seq<Item>, connections: seq<Item>, fallback: seq<Item>,
      edges: seq<string>)
    requires PinAll(others, connections, fallback, edges).Ok? && |connections| <= 2
    ensures |connections| <= |PinAll(others, connections, fallback, edges).value| <= 2
  {
    if edges != [] {
      PinAllFits(others, connections, fallback, edges[..|edges| - 1]);
    }
  }

  /** No block outgrows its place, and every accepted answer says something. */
  lemma AcceptedFits(p: Packet, w: Wording, fallback: Brief, b: RawBrief, out: Brief)
    requires Accepted(p, w, fallback, b, out)
    ensures |out.connections| <= 2 && |out.interpretation| <= 1 && |out.limits| <= 1
    ensures out.connections != [] || out.interpretation != []
    ensures fallback.overview.Some? ==> out.overview.Some?
    ensures fallback.limits != [] ==> |out.limits| == 1
  {
    var own := Own(p, w, b);
    WrittenFewer(w, b.connections);
    WrittenFewer(w, b.interpretation);
    WrittenFewer(w, b.limits);
    PinAllFits(Single(OverviewOf(p, w, fallback, b)) + own.interpretation, own.connections, fallback.connections,
      Contradictions(p.edges));
  }

  /** A demanded caveat is there: in the answer's own words or in the host's. */
  lemma CaveatKept(w: Wording, limits: seq<Item>, fallback: seq<Item>)
    requires fallback != [] && w.demands(fallback[0].text)
    ensures Caveats(w, limits, fallback) != []
    ensures Caveats(w, limits, fallback)[0] == fallback[0]
            || w.meets(fallback[0].text, Caveats(w, limits, fallback)[0].text)
  {
  }

  /** The host's caveat stands in exactly when the answer has none, or a demanded one is not met by
      its first; otherwise the answer's caveats stay. */
  lemma CaveatReplacedExactlyWhen(w: Wording, limits: seq<Item>, fallback: seq<Item>)
    ensures fallback == [] ==> Caveats(w, limits, fallback) == limits
    ensures fallback != [] ==>
            var lost := limits == [] || (w.demands(fallback[0].text) && !w.meets(fallback[0].text, limits[0].text));
            Caveats(w, limits, fallback) == if lost then fallback[..1] else limits
  {
  }

  ghost predicate DistinctIds(p: Packet) {
    && (forall i, j :: 0 <= i < j < |p.nodes| ==> p.nodes[i].id != p.nodes[j].id)
    && (forall i, j :: 0 <= i < j < |p.edges| ==> p.edges[i].id != p.edges[j].id)
  }

  ghost predicate CitesRelated(p: Packet, it: Item) {
    exists e :: e in p.edges && e.related && e.id in it.edges
  }

  ghost predicate CitesInference(p: Packet, it: Item) {
    exists n :: n in p.nodes && n.inference && n.id in it.nodes
  }

  /** The item cites packet records only, and its class is theirs. */
  ghost predicate Grounded(p: Packet, it: Item) {
    && it.nodes + it.edges != []
    && (forall id :: id in it.nodes ==> id in NodeIdSet(p)) && (forall id :: id in it.edges ==> id in EdgeIdSet(p))
    && Classed(p, it)
  }

  /** The class of an item is that of the records it cites. */
  ghost predicate Classed(p: Packet, it: Item) {
    && (it.epistemic == Tentative <==> CitesRelated(p, it))
    && (it.epistemic == StoredInference <==> CitesInference(p, it) && !CitesRelated(p, it))
    && (it.epistemic == Coverage <==> it.nodes == [] && it.edges == [])
  }

  /** A tentative item is hedged, and a stored inference is attributed. */
  predicate Voiced(w: Wording, it: Item) {
    (it.epistemic == Tentative ==> w.hedged(it.text)) && (it.epistemic == StoredInference ==> w.attributed(it.text))
  }

  lemma {:induction false} CitedAreKnown(p: Packet, w: Wording, basis: seq<string>)
    ensures forall n :: n in NodesCited(p, w, basis) ==> n in p.nodes
    ensures forall e :: e in EdgesCited(p, w, basis) ==> e in p.edges
  {
    if basis != [] {
      CitedAreKnown(p, w, basis[..|basis| - 1]);
    }
  }

  lemma {:induction false} NodeIdsAre(nodes: seq<PacketNode>)
    ensures |NodeIds(nodes)| == |nodes|
    ensures forall i :: 0 <= i < |nodes| ==> NodeIds(nodes)[i] == nodes[i].id
  {
    if nodes != [] {
      NodeIdsAre(nodes[..|nodes| - 1]);
    }
  }

  lemma {:induction false} EdgeIdsAre(edges: seq<PacketEdge>)
    ensures |EdgeIds(edges)| == |edges|
    ensures forall i :: 0 <= i < |edges| ==> EdgeIds(edges)[i] == edges[i].id
  {
    if edges != [] {
      EdgeIdsAre(edges[..|edges| - 1]);
    }
  }

  lemma RelatedIds(p: Packet, edges: seq<PacketEdge>, it: Item)
    requires DistinctIds(p) && it.edges == EdgeIds(edges) && forall e :: e in edges ==> e in p.edges
    ensures AnyRelated(edges) <==> CitesRelated(p, it)
    ensures forall id :: id in it.edges ==> id in EdgeIdSet(p)
  {
    EdgeIdsAre(edges);
    if AnyRelated(edges) {
      var i :| 0 <= i < |edges| && edges[i].related;
      assert edges[i] in p.edges && it.edges[i] == edges[i].id;
    }
    if CitesRelated(p, it) {
      var e :| e in p.edges && e.related && e.id in it.edges;
      var i :| 0 <= i < |edges| && it.edges[i] == e.id;
      assert edges[i] in p.edges;
      assert edges[i] == e;
    }
  }

  lemma InferenceIds(p: Packet, nodes: seq<PacketNode>, it: Item)
    requires DistinctIds(p) && it.nodes == NodeIds(nodes) && forall n :: n in nodes ==> n in p.nodes
    ensures AnyInference(nodes) <==> CitesInference(p, it)
    ensures forall id :: id in it.nodes ==> id in NodeIdSet(p)
  {
    NodeIdsAre(nodes);
    if AnyInference(nodes) {
      var i :| 0 <= i < |nodes| && nodes[i].inference;
      assert nodes[i] in p.nodes && it.nodes[i] == nodes[i].id;
    }
    if CitesInference(p, it) {
      var n :| n in p.nodes && n.inference && n.id in it.nodes;
      var i :| 0 <= i < |nodes| && it.nodes[i] == n.id;
      assert nodes[i] in p.nodes;
      assert nodes[i] == n;
    }
  }

  /** Dropping repeats and strangers leaves a grounded item grounded. */
  lemma CleanedGrounded(p: Packet, w: Wording, it: Item, basis: seq<nat>)
    requires Grounded(p, it) && Voiced(w, it)
    ensures var out := Cleaned(Known(NodeIdSet(p), EdgeIdSet(p)), it).(basis := basis);
            Grounded(p, out) && Voiced(w, out)
  {
    CleanedClassed(p, it, basis);
    var out := Cleaned(Known(NodeIdSet(p), EdgeIdSet(p)), it).(basis := basis);
    DistinctIs(it.nodes);
    DistinctIs(it.edges);
    AmongIs(Distinct(it.nodes), NodeIdSet(p));
    AmongIs(Distinct(it.edges), EdgeIdSet(p));
    assert forall id :: id in out.nodes <==> id in it.nodes;
    assert forall id :: id in out.edges <==> id in it.edges;
    assert it.nodes != [] ==> it.nodes[0] in out.nodes;
    assert it.edges != [] ==> it.edges[0] in out.edges;
  }

  lemma CleanedClassed(p: Packet, it: Item, basis: seq<nat>)
    requires Classed(p, it) && (forall id :: id in it.nodes ==> id in NodeIdSet(p))
    requires forall id :: id in it.edges ==> id in EdgeIdSet(p)
    ensures Classed(p, Cleaned(Known(NodeIdSet(p), EdgeIdSet(p)), it).(basis := basis))
  {
    var out := Cleaned(Known(NodeIdSet(p), EdgeIdSet(p)), it).(basis := basis);
    DistinctIs(it.nodes);
    DistinctIs(it.edges);
    AmongIs(Distinct(it.nodes), NodeIdSet(p));
    AmongIs(Distinct(it.edges), EdgeIdSet(p));
    assert forall id :: id in out.nodes <==> id in it.nodes;
    assert forall id :: id in out.edges <==> id in it.edges;
    assert it.nodes != [] ==> it.nodes[0] in out.nodes;
    assert out.nodes != [] ==> out.nodes[0] in it.nodes;
    assert it.edges != [] ==> it.edges[0] in out.edges;
    assert out.edges != [] ==> out.edges[0] in it.edges;
    assert CitesRelated(p, out) <==> CitesRelated(p, it);
    assert CitesInference(p, out) <==> CitesInference(p, it);
  }

  /** Every accepted item has the class of what it cites and the voice of its class. */
  lemma ItemClassed(p: Packet, w: Wording, block: Block, raw: RawItem)
    requires DistinctIds(p) && Acceptable(p, w, block, raw)
    ensures var it := ItemOf(p, w, raw);
            && Classed(p, it) && Voiced(w, it)
            && (forall id :: id in it.nodes ==> id in NodeIdSet(p))
            && forall id :: id in it.edges ==> id in EdgeIdSet(p)
  {
    CitedAreKnown(p, w, raw.basis);
    RelatedIds(p, EdgesCited(p, w, raw.basis), ItemOf(p, w, raw));
    InferenceIds(p, NodesCited(p, w, raw.basis), ItemOf(p, w, raw));
    NodeIdsAre(NodesCited(p, w, raw.basis));
    EdgeIdsAre(EdgesCited(p, w, raw.basis));
  }

  lemma ItemGrounded(p: Packet, w: Wording, block: Block, raw: RawItem)
    requires DistinctIds(p) && Acceptable(p, w, block, raw) && !block.LimitsBlock?
    ensures Grounded(p, ItemOf(p, w, raw)) && Voiced(w, ItemOf(p, w, raw))
    ensures block.InterpretationBlock? ==> ItemOf(p, w, raw).epistemic in {StoredInference, Tentative}
  {
    ItemClassed(p, w, block, raw);
    NodeIdsAre(NodesCited(p, w, raw.basis));
    EdgeIdsAre(EdgesCited(p, w, raw.basis));
  }

  lemma OwnGrounded(p: Packet, w: Wording, block: Block, raws: seq<RawItem>, it: Item)
    requires DistinctIds(p) && AllAcceptable(p, w, block, raws) && !block.LimitsBlock? && it in ItemsOf(p, w, raws)
    ensures Grounded(p, it) && Voiced(w, it)
    ensures block.InterpretationBlock? ==> it.epistemic in {StoredInference, Tentative}
  {
    var i :| 0 <= i < |raws| && ItemsOf(p, w, raws)[i] == it;
    ItemGrounded(p, w, block, raws[i]);
  }

  /** The shown connections are the answer's own and the host's. */
  lemma {:induction false} PinAllFrom(others: seq<Item>, connections: seq<Item>, fallback: seq<Item>,
      edges: seq<string>)
    requires PinAll(others, connections, fallback, edges).Ok?
    ensures forall it :: it in PinAll(others, connections, fallback, edges).value ==>
            it in connections || it in fallback
  {
    if edges != [] {
      PinAllFrom(others, connections, fallback, edges[..|edges| - 1]);
    }
  }

  /** Every item of the answer outside its limits cites packet records; it is tentative exactly
      when it cites a related edge, a stored inference exactly when it cites an inference and no
      such edge, and recorded otherwise; and it is hedged or attributed as its class asks.
      Whatever else is shown is the host's own. */
  lemma AcceptedIsGrounded(p: Packet, w: Wording, fallback: Brief, b: RawBrief, out: Brief)
    requires Accepted(p, w, fallback, b, out) && DistinctIds(p)
    ensures Written(w, b.overview) != [] ==>
            out.overview.Some? && Grounded(p, out.overview.value) && Voiced(w, out.overview.value)
    ensures forall i :: 0 <= i < |out.interpretation| ==>
            Grounded(p, out.interpretation[i]) && Voiced(w, out.interpretation[i])
            && out.interpretation[i].epistemic in {StoredInference, Tentative}
    ensures forall i :: 0 <= i < |out.connections| ==>
            (Grounded(p, out.connections[i]) && Voiced(w, out.connections[i]))
            || Shown(p, w, fallback, b).value[i] in fallback.connections
  {
    var own := Own(p, w, b);
    var k := Known(NodeIdSet(p), EdgeIdSet(p));
    if Written(w, b.overview) != [] {
      var it := own.overview.value;
      OwnGrounded(p, w, OverviewBlock, Written(w, b.overview), it);
      assert Overviews(Merged(p, w, fallback, b))[0] == it && Overviews(out)[0] == out.overview.value;
      CleanedGrounded(p, w, it, out.overview.value.basis);
    }
    forall i | 0 <= i < |out.interpretation|
      ensures Grounded(p, out.interpretation[i]) && Voiced(w, out.interpretation[i])
      ensures out.interpretation[i].epistemic in {StoredInference, Tentative}
    {
      OwnGrounded(p, w, InterpretationBlock, Written(w, b.interpretation), own.interpretation[i]);
      CleanedGrounded(p, w, own.interpretation[i], out.interpretation[i].basis);
    }
    PinAllFrom(Single(OverviewOf(p, w, fallback, b)) + own.interpretation, own.connections, fallback.connections,
      Contradictions(p.edges));
    var shown := Shown(p, w, fallback, b).value;
    forall i | 0 <= i < |out.connections| && shown[i] !in fallback.connections
      ensures Grounded(p, out.connections[i]) && Voiced(w, out.connections[i])
    {
      OwnGrounded(p, w, ConnectionsBlock, Written(w, b.connections), shown[i]);
      CleanedGrounded(p, w, shown[i], out.connections[i].basis);
    }
  }

  /** The caveats that are the answer's own have the class of what they cite, which may be
      nothing. */
  lemma AcceptedLimitsAreClassed(p: Packet, w: Wording, fallback: Brief, b: RawBrief, out: Brief, i: nat)
    requires Accepted(p, w, fallback, b, out) && DistinctIds(p) && i < |out.limits|
    ensures (Classed(p, out.limits[i]) && Voiced(w, out.limits[i]))
            || Merged(p, w, fallback, b).limits[i] in fallback.limits
  {
    var it := Merged(p, w, fallback, b).limits[i];
    CaveatsFrom(w, Own(p, w, b).limits, fallback.limits, it);
    if it !in fallback.limits {
      OwnClassed(p, w, LimitsBlock, Written(w, b.limits), it);
      CleanedClassed(p, it, out.limits[i].basis);
    }
  }

  lemma CaveatsFrom(w: Wording, limits: seq<Item>, fallback: seq<Item>, it: Item)
    requires it in Caveats(w, limits, fallback)
    ensures it in limits || it in fallback
  {
  }

  lemma OwnClassed(p: Packet, w: Wording, block: Block, raws: seq<RawItem>, it: Item)
    requires DistinctIds(p) && AllAcceptable(p, w, block, raws) && it in ItemsOf(p, w, raws)
    ensures Classed(p, it) && Voiced(w, it)
    ensures (forall id :: id in it.nodes ==> id in NodeIdSet(p)) && forall id :: id in it.edges ==> id in EdgeIdSet(p)
  {
    var i :| 0 <= i < |raws| && ItemsOf(p, w, raws)[i] == it;
    ItemClassed(p, w, block, raws[i]);
  }

  // -------------------------------------- contradictions that stay in the brief

  /** What a reader sees of the records' relations. */
  function Visible(b: Brief): seq<Item> {
    Single(b.overview) + b.interpretation + b.connections
  }

  lemma FilledCites(k: Known, items: seq<Item>, out: seq<Item>, references: seq<Reference>, edge: string)
    requires Filled(k, items, out, references) && edge in k.edges
    ensures Cites(out, edge) <==> Cites(items, edge)
  {
    forall i | 0 <= i < |items| ensures edge in out[i].edges <==> edge in items[i].edges {
      DistinctIs(items[i].edges);
      AmongIs(Distinct(items[i].edges), k.edges);
    }
  }

  /** Numbering hides no citation of a packet edge. */
  lemma NumberingShows(k: Known, b: Brief, out: Brief, edge: string)
    requires IsNumbering(k, b, out) && edge in k.edges
    ensures Cites(Visible(out), edge) <==> Cites(Visible(b), edge)
  {
    assert Single(b.overview) == Overviews(b) && Single(out.overview) == Overviews(out);
    FilledCites(k, Overviews(b), Overviews(out), out.references, edge);
    FilledCites(k, b.interpretation, out.interpretation, out.references, edge);
    FilledCites(k, b.connections, out.connections, out.references, edge);
    CitesJoin(Single(b.overview), b.interpretation, edge);
    CitesJoin(Single(b.overview) + b.interpretation, b.connections, edge);
    CitesJoin(Single(out.overview), out.interpretation, edge);
    CitesJoin(Single(out.overview) + out.interpretation, out.connections, edge);
  }

  lemma {:induction false} ContradictionsKnown(p: Packet, edges: seq<PacketEdge>)
    requires forall e :: e in edges ==> e in p.edges
    ensures forall id :: id in Contradictions(edges) ==> id in EdgeIdSet(p)
  {
    if edges != [] {
      ContradictionsKnown(p, edges[..|edges| - 1]);
    }
  }

  lemma PinOneShows(others: seq<Item>, connections: seq<Item>, fallback: seq<Item>, edge: string)
    requires PinOne(others, connections, fallback, edge).Ok?
    ensures Cites(others + PinOne(others, connections, fallback, edge).value, edge)
  {
    if !Cites(others + connections, edge) {
      CitesJoin(others, PinOne(others, connections, fallback, edge).value, edge);
      assert edge in Restored(connections, FindCiting(fallback, edge).value)[0].edges;
    }
  }

  /** When restoring the second contradiction drops the only item that shows the first: it
      stands in the last of two connections and nowhere else, while nothing shows the second
      and the host's item for it does not show the first. */
  predicate Evicts(others: seq<Item>, connections: seq<Item>, fallback: seq<Item>, first: string, second: string) {
    && |connections| == 2
    && first in connections[1].edges
    && first !in connections[0].edges
    && !Cites(others, first)
    && !Cites(others + connections, second)
    && FindCiting(fallback, second).Some?
    && first !in FindCiting(fallback, second).value.edges
  }

  lemma PinTwo(others: seq<Item>, connections: seq<Item>, fallback: seq<Item>, first: string, second: string)
    requires |connections| <= 2 && PinAll(others, connections, fallback, [first, second]).Ok?
    ensures Cites(others + PinAll(others, connections, fallback, [first, second]).value, second)
    ensures Cites(others + PinAll(others, connections, fallback, [first, second]).value, first) <==>
      !Evicts(others, connections, fallback, first, second)
  {
    assert [first, second][..1] == [first] && [first][..0] == [];
    assert PinAll(others, connections, fallback, [first]) == PinOne(others, connections, fallback, first);
    var middle := PinOne(others, connections, fallback, first).value;
    var last := PinOne(others, middle, fallback, second).value;
    assert PinAll(others, connections, fallback, [first, second]) == Ok(last);
    PinOneShows(others, connections, fallback, first);
    PinOneShows(others, middle, fallback, second);
    CitesJoin(others, connections, first);
    CitesJoin(others, middle, first);
    CitesJoin(others, last, first);
    if !Cites(others + middle, second) {
      RestoredShows(middle, FindCiting(fallback, second).value, first);
      if !Cites(others + connections, first) {
        assert first in middle[0].edges;
      }
    }
  }

  /** What a restored item leaves visible. */
  lemma RestoredShows(connections: seq<Item>, fallback: Item, edge: string)
    ensures Cites(Restored(connections, fallback), edge) <==>
      edge in fallback.edges
        || Cites(if |connections| >= 2 then connections[..|connections| - 1] else connections, edge)
  {
    CitesJoin([fallback], if |connections| >= 2 then connections[..|connections| - 1] else connections, edge);
    assert Cites([fallback], edge) <==> edge in fallback.edges by {
      assert [fallback][0] == fallback;
    }
  }

  /** A sole recorded contradiction is always visible in an accepted answer. */
  lemma SoleContradictionStays(p: Packet, w: Wording, fallback: Brief, b: RawBrief, out: Brief, edge: string)
    requires Accepted(p, w, fallback, b, out) && Contradictions(p.edges) == [edge]
    ensures Cites(Visible(out), edge)
  {
    var merged, own := Merged(p, w, fallback, b), Own(p, w, b);
    var others := Single(merged.overview) + own.interpretation;
    ContradictionsKnown(p, p.edges);
    assert [edge][..0] == [];
    assert PinAll(others, own.connections, fallback.connections, [edge]) ==
      PinOne(others, own.connections, fallback.connections, edge);
    PinOneShows(others, own.connections, fallback.connections, edge);
    NumberingShows(Known(NodeIdSet(p), EdgeIdSet(p)), merged, out, edge);
  }

  /** Of two recorded contradictions the second is always visible, and the first exactly when
      restoring the second does not evict it. */
  lemma TwoContradictionsStayExactlyWhen(p: Packet, w: Wording, fallback: Brief, b: RawBrief, out: Brief,
      first: string, second: string)
    requires Accepted(p, w, fallback, b, out) && Contradictions(p.edges) == [first, second]
    ensures Cites(Visible(out), second)
    ensures Cites(Visible(out), first) <==>
      !Evicts(Single(OverviewOf(p, w, fallback, b)) + Own(p, w, b).interpretation, Own(p, w, b).connections,
        fallback.connections, first, second)
  {
    var merged, own := Merged(p, w, fallback, b), Own(p, w, b);
    var others := Single(merged.overview) + own.interpretation;
    ContradictionsKnown(p, p.edges);
    WrittenFewer(w, b.connections);
    assert Contradictions(p.edges)[0] == first && Contradictions(p.edges)[1] == second;
    PinTwo(others, own.connections, fallback.connections, first, second);
    NumberingShows(Known(NodeIdSet(p), EdgeIdSet(p)), merged, out, first);
    NumberingShows(Known(NodeIdSet(p), EdgeIdSet(p)), merged, out, second);
  }

  lemma TwoWritten(p: Packet, w: Wording, x: RawItem, y: RawItem)
    requires w.tidy(x.text) != "" && w.tidy(y.text) != ""
    ensures Written(w, [x, y]) == [x, y] && ItemsOf(p, w, [x, y]) == [ItemOf(p, w, x), ItemOf(p, w, y)]
    ensures WordsOf(w, [x, y]) == w.words(w.tidy(x.text)) + w.words(w.tidy(y.text))
  {
    assert [x, y][..1] == [x] && [x][..0] == [];
    assert Written(w, [x]) == [x];
    assert Written(w, [x, y]) == Written(w, [x, y][..1]) + [y];
    assert WordsOf(w, [x]) == w.words(w.tidy(x.text));
    assert WordsOf(w, [x, y]) == WordsOf(w, [x, y][..1]) + w.words(w.tidy(y.text));
  }

  lemma CitesOne(p: Packet, w: Wording, written: string, edge: PacketEdge)
    requires FindNode(p.nodes, w.canonical(written)) == None && FindEdge(p.edges, w.canonical(written)) == Some(edge)
    ensures NodesCited(p, w, [written]) == [] && EdgesCited(p, w, [written]) == [edge]
    ensures NodeIds([]) == [] && EdgeIds([edge]) == [edge.id]
  {
    assert [written][..0] == [] && [edge][..0] == [];
  }

  /** An item that the wording accepts as a connection. */
  predicate Accepts(p: Packet, w: Wording, x: RawItem) {
    w.tidy(x.text) != "" && Acceptable(p, w, ConnectionsBlock, x)
  }

  lemma TwoLinksPass(p: Packet, w: Wording, x: RawItem, y: RawItem)
    requires Accepts(p, w, x) && Accepts(p, w, y)
    ensures Passes(p, w, RawBrief([], [x, y], [], []))
    ensures Own(p, w, RawBrief([], [x, y], [], [])) == Brief(None, [ItemOf(p, w, x), ItemOf(p, w, y)], [], [], [])
  {
    TwoWritten(p, w, x, y);
  }

  lemma PinTwoEvicts(others: seq<Item>, connections: seq<Item>, fallback: seq<Item>, first: string, second: string)
    requires Evicts(others, connections, fallback, first, second)
    ensures PinAll(others, connections, fallback, [first, second]).Ok?
    ensures !Cites(others + PinAll(others, connections, fallback, [first, second]).value, first)
  {
    assert [first, second][..1] == [first] && [first][..0] == [];
    CitesJoin(others, connections, first);
    assert Cites(connections, first);
    assert PinAll(others, connections, fallback, [first]) == Ok(connections);
    PinTwo(others, connections, fallback, first, second);
  }

  /** Two answered connections, the second of which alone shows the first contradiction. */
  lemma Evicted(p: Packet, w: Wording, x: RawItem, y: RawItem, host: Item, link: string, first: string, second: string)
    requires Contradictions(p.edges) == [first, second] && link != first && first != second && second != link
    requires Accepts(p, w, x) && ItemOf(p, w, x).edges == [link]
    requires Accepts(p, w, y) && ItemOf(p, w, y).edges == [first]
    requires host.edges == [second]
    ensures var fallback, b := Brief(None, [host], [], [], []), RawBrief([], [x, y], [], []);
            && Passes(p, w, b) && Shown(p, w, fallback, b).Ok?
            && !Cites(Visible(Merged(p, w, fallback, b)), first)
  {
    var fallback, b := Brief(None, [host], [], [], []), RawBrief([], [x, y], [], []);
    var shown := [ItemOf(p, w, x), ItemOf(p, w, y)];
    TwoLinksPass(p, w, x, y);
    EvictsHere(shown[0], shown[1], host, link, first, second);
    PinTwoEvicts([], shown, [host], first, second);
    LinksOnly(p, w, fallback, b, shown);
  }

  /** With nothing but connections, what is shown is what pinning leaves of them. */
  lemma LinksOnly(p: Packet, w: Wording, fallback: Brief, b: RawBrief, shown: seq<Item>)
    requires Own(p, w, b) == Brief(None, shown, [], [], []) && fallback.overview == None
    ensures Shown(p, w, fallback, b) == PinAll([], shown, fallback.connections, Contradictions(p.edges))
    ensures Shown(p, w, fallback, b).Ok? ==> Visible(Merged(p, w, fallback, b)) == [] + Shown(p, w, fallback, b).value
  {
    assert Single(OverviewOf(p, w, fallback, b)) + Own(p, w, b).interpretation == [];
  }

  lemma EvictsHere(x: Item, y: Item, host: Item, link: string, one: string, two: string)
    requires x.edges == [link] && y.edges == [one] && host.edges == [two] && link != one && one != two && two != link
    ensures Evicts([], [x, y], [host], one, two)
  {
    assert FindCiting([host], two) == Some(host);
    assert [] + [x, y] == [x, y];
  }

  lemma ThreeEdges(x: PacketEdge, y: PacketEdge, z: PacketEdge)
    requires !x.contradicts && y.contradicts && z.contradicts
    ensures Contradictions([x, y, z]) == [y.id, z.id]
  {
    assert [x, y, z][..2] == [x, y] && [x, y][..1] == [x] && [x][..0] == [];
    assert Contradictions([x]) == [];
    assert Contradictions([x, y]) == [y.id];
  }

  /** Every edge joins two nodes of the packet. */
  ghost predicate ClosedPacket(p: Packet) {
    forall e :: e in p.edges ==> e.source in NodeIdSet(p) && e.target in NodeIdSet(p)
  }

  const Plain := PacketEdge("E1", "link", "a", "b", false, false)
  const Disputed := PacketEdge("E2", "first", "a", "c", false, true)
  const Restorable := PacketEdge("E3", "second", "b", "c", false, true)

  const Trio := Packet([PacketNode("N1", "a", false), PacketNode("N2", "b", false), PacketNode("N3", "c", false)],
      [Plain, Disputed, Restorable])

  const OnLink := RawItem("The opening report names the later one", ["E1"])
  const OnFirst := RawItem("The closing report disputes the opening one", ["E2"])

  /** The two references are read as they stand. */
  lemma TrioReads(w: Wording)
    requires w.canonical("E1") == "E1" && w.canonical("E2") == "E2"
    ensures NodesCited(Trio, w, OnLink.basis) == [] && EdgesCited(Trio, w, OnLink.basis) == [Plain]
    ensures NodesCited(Trio, w, OnFirst.basis) == [] && EdgesCited(Trio, w, OnFirst.basis) == [Disputed]
    ensures ItemOf(Trio, w, OnLink).edges == ["link"] && ItemOf(Trio, w, OnFirst).edges == ["first"]
  {
    TrioFinds("E1", Plain);
    TrioFinds("E2", Disputed);
    CitesOne(Trio, w, "E1", Plain);
    CitesOne(Trio, w, "E2", Disputed);
  }

  lemma TrioFinds(reference: string, edge: PacketEdge)
    requires edge in [Plain, Disputed] && edge.reference == reference
    ensures FindNode(Trio.nodes, reference) == None && FindEdge(Trio.edges, reference) == Some(edge)
  {
    assert reference[0] == 'E';
    forall n | n in Trio.nodes ensures n.reference != reference { assert n.reference[0] == 'N'; }
    assert edge in Trio.edges;
    forall e | e in Trio.edges && e.reference == reference ensures e == edge { assert e.reference[1] == reference[1]; }
  }

  /** An accepted answer that loses a recorded contradiction, whatever the wording, as long as it
      accepts the two texts: the second connection shows the first contradiction, the first
      connection an ordinary edge, and the host restores the second contradiction. */
  lemma ContradictionEvicted(w: Wording, host: Item)
    requires w.canonical("E1") == "E1" && w.canonical("E2") == "E2"
    requires Accepts(Trio, w, OnLink) && Accepts(Trio, w, OnFirst) && host.edges == ["second"]
    ensures var fallback, b := Brief(None, [host], [], [], []), RawBrief([], [OnLink, OnFirst], [], []);
            && ClosedPacket(Trio) && DistinctIds(Trio) && Contradictions(Trio.edges) == ["first", "second"]
            && Passes(Trio, w, b) && Shown(Trio, w, fallback, b).Ok?
            && !Cites(Visible(Merged(Trio, w, fallback, b)), "first")
  {
    TrioReads(w);
    TrioIsClosed();
    ThreeEdges(Plain, Disputed, Restorable);
    Evicted(Trio, w, OnLink, OnFirst, host, "link", "first", "second");
  }

  lemma TrioIsClosed()
    ensures ClosedPacket(Trio) && DistinctIds(Trio)
    ensures Plain.id != Disputed.id && Disputed.id != Restorable.id && Restorable.id != Plain.id
  {
    assert Trio.nodes[0].id == "a" && Trio.nodes[1].id == "b" && Trio.nodes[2].id == "c";
    assert Trio.nodes[0] in Trio.nodes && Trio.nodes[1] in Trio.nodes && Trio.nodes[2] in Trio.nodes;
    assert Plain.id[0] == 'l' && Disputed.id[0] == 'f' && Restorable.id[0] == 's';
  }

  /** Such wordings there are: one that reads texts as they stand, counts seven words in each,
      and finds nothing to object to. */
  lemma SomeWordingAccepts() returns (w: Wording)
    ensures w.canonical("E1") == "E1" && w.canonical("E2") == "E2"
    ensures Accepts(Trio, w, OnLink) && Accepts(Trio, w, OnFirst)
  {
    w := Wording((s: string) => s, (s: string) => 7, (s: string) => s, (s: string) => false, (s: string) => false,
                 (s: string, nodes: seq<PacketNode>, edges: seq<PacketEdge>) => true, (s: string) => false,
                   (s: string, t: string) => true);
    TrioReads(w);
  }
}
