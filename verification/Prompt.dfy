/** What the model is shown of a neighborhood. */
module Prompt {
  import opened Wrappers
  import opened Scrub

  /* The packet builder makes the table of known ids out of the records, scrubs labels,
     rationales and record payloads with it, and shortens long payload texts afterwards. */

  // ----------------------------------------------------------- record payloads

  datatype Endpoint =
    | MemoryEnd(memory: string, kind: string)
    | ArticleEnd(run: string, article: string, revision: string)
    | SourceEnd(origin: string, source: string, revision: string)

  datatype ActorRef = ActorRef(actor: string, role: string, binding: string)

  datatype Payload =
    | Actor(subtype: string, name: string, aliases: seq<string>, identifiers: seq<string>, identity: string)
    | Claim(actors: seq<ActorRef>, relation: string, about: string, modality: string, passages: seq<string>,
            assessment: string)
    | Inference(premises: seq<string>, actors: seq<ActorRef>, reasoning: string, limitations: string,
                support: string, coverage: string)
    | Link(source: Endpoint, target: Endpoint, relation: string, rationale: string, receipts: seq<string>,
           promoted: Option<string>)
    | Related(source: Endpoint, target: Endpoint, shared: seq<string>, basis: string, interpretation: string,
              gap: string, revisions: seq<string>)

  function Texts(ss: seq<string>): Json { List(seq(|ss|, i requires 0 <= i < |ss| => Text(ss[i]))) }

  function EndpointValue(e: Endpoint): Json {
    match e
    case MemoryEnd(memory, kind) =>
      Object([Field("type", Text("memory")), Field("memory_id", Text(memory)), Field("kind", Text(kind))])
    case ArticleEnd(run, article, revision) =>
      Object([Field("type", Text("article")), Field("run_id", Text(run)), Field("article_id", Text(article)),
              Field("revision", Text(revision))])
    case SourceEnd(origin, source, revision) =>
      Object([Field("type", Text("source")), Field("origin", Text(origin)), Field("source_id", Text(source)),
              Field("revision", Text(revision))])
  }

  function ActorRefValue(r: ActorRef): Json {
    Object([Field("actor_id", Text(r.actor)), Field("role", Text(r.role)), Field("binding_state", Text(r.binding))])
  }

  function ActorRefs(rs: seq<ActorRef>): Json {
    List(seq(|rs|, i requires 0 <= i < |rs| => ActorRefValue(rs[i])))
  }

  function Kind(p: Payload): string {
    match p
    case Actor(_, _, _, _, _) => "actor"
    case Claim(_, _, _, _, _, _) => "claim"
    case Inference(_, _, _, _, _, _) => "inference"
    case Link(_, _, _, _, _, _) => "link"
    case Related(_, _, _, _, _, _, _) => "related"
  }

  function Fields(p: Payload): seq<Field> {
    match p
    case Actor(subtype, name, aliases, identifiers, identity) =>
      [Field("subtype", Text(subtype)), Field("display_name", Text(name)), Field("aliases", Texts(aliases)),
       Field("identifiers", Texts(identifiers)), Field("identity_state", Text(identity))]
    case Claim(actors, relation, about, modality, passages, assessment) =>
      [Field("actors", ActorRefs(actors)), Field("predicate", Text(relation)), Field("object", Text(about)),
       Field("modality", Text(modality)), Field("passages", Texts(passages)), Field("assessment", Text(assessment))]
    case Inference(premises, actors, reasoning, limitations, support, coverage) =>
      [Field("premise_claims", Texts(premises)), Field("actors", ActorRefs(actors)),
       Field("reasoning", Text(reasoning)), Field("limitations", Text(limitations)),
       Field("support_state", Text(support)), Field("coverage_receipt", Text(coverage))]
    case Link(source, target, relation, rationale, receipts, promoted) =>
      [Field("source", EndpointValue(source)), Field("target", EndpointValue(target)),
       Field("relation", Text(relation)), Field("rationale", Text(rationale)), Field("receipts", Texts(receipts)),
       Field("promoted_from", if promoted.Some? then Text(promoted.value) else Other)]
    case Related(source, target, shared, basis, interpretation, gap, revisions) =>
      [Field("source", EndpointValue(source)), Field("target", EndpointValue(target)),
       Field("shared_actors", Texts(shared)), Field("basis", Text(basis)),
       Field("interpretation", Text(interpretation)), Field("verification_gap", Text(gap)),
       Field("source_revisions", Texts(revisions))]
  }

  /** A payload as JSON, tagged by its kind. */
  function ToValue(p: Payload): Json {
    Object([Field("kind", Text(Kind(p))), Field("payload", Object(Fields(p)))])
  }

  ghost predicate EachListOrFree(a: Aliases, fields: seq<Field>) {
    forall i :: 0 <= i < |fields| ==> FieldListOrFree(a, fields[i])
  }

  lemma {:induction false} EachField(a: Aliases, fields: seq<Field>, noted: bool)
    requires EachListOrFree(a, fields)
    ensures FieldsListsOrFree(a, fields, noted)
  {
    if fields != [] {
      assert FieldListOrFree(a, fields[0]);
      forall i | 0 <= i < |fields| - 1 ensures FieldListOrFree(a, fields[1..][i]) {
        assert fields[1..][i] == fields[i + 1];
      }
      EachField(a, fields[1..], noted);
    }
  }

  lemma ObjectLists(a: Aliases, fields: seq<Field>)
    requires EachListOrFree(a, fields)
    ensures ListsOrFree(a, Object(fields))
  {
    EachField(a, fields, Outside(a, fields) > 0);
  }

  lemma {:induction false} EachItem(a: Aliases, items: seq<Json>)
    requires forall i :: 0 <= i < |items| ==> ListsOrFree(a, items[i])
    ensures ListsOrFree(a, List(items))
  {
    if items != [] {
      forall i | 0 <= i < |items| - 1 ensures ListsOrFree(a, items[1..][i]) { assert items[1..][i] == items[i + 1]; }
      EachItem(a, items[1..]);
    }
  }

  lemma EndpointLists(a: Aliases, e: Endpoint)
    ensures ListsOrFree(a, EndpointValue(e))
  {
    ObjectLists(a, EndpointValue(e).fields);
  }

  lemma ActorRefsList(a: Aliases, rs: seq<ActorRef>)
    ensures ListsOrFree(a, ActorRefs(rs))
  {
    forall i | 0 <= i < |rs| ensures ListsOrFree(a, ActorRefs(rs).items[i]) {
      ObjectLists(a, ActorRefValue(rs[i]).fields);
    }
    EachItem(a, ActorRefs(rs).items);
  }

  lemma ActorLists(a: Aliases, p: Payload)
    requires p.Actor? || p.Claim?
    ensures EachListOrFree(a, Fields(p))
  {
    if p.Actor? {
      EachItem(a, Texts(p.aliases).items);
      EachItem(a, Texts(p.identifiers).items);
    } else {
      ActorRefsList(a, p.actors);
      EachItem(a, Texts(p.passages).items);
    }
  }

  lemma InferenceLists(a: Aliases, p: Payload)
    requires p.Inference?
    ensures EachListOrFree(a, Fields(p))
  {
    ActorRefsList(a, p.actors);
  }

  lemma LinkLists(a: Aliases, p: Payload)
    requires p.Link?
    ensures EachListOrFree(a, Fields(p))
  {
    EndpointLists(a, p.source);
    EndpointLists(a, p.target);
    EachItem(a, Texts(p.receipts).items);
  }

  lemma RelatedLists(a: Aliases, p: Payload)
    requires p.Related?
    ensures EachListOrFree(a, Fields(p))
  {
    EndpointLists(a, p.source);
    EndpointLists(a, p.target);
  }

  lemma PayloadLists(a: Aliases, p: Payload)
    ensures ListsOrFree(a, ToValue(p))
  {
    match p {
      case Inference(_, _, _, _, _, _) => InferenceLists(a, p);
      case Link(_, _, _, _, _, _) => LinkLists(a, p);
      case Related(_, _, _, _, _, _, _) => RelatedLists(a, p);
      case _ => ActorLists(a, p);
    }
    ObjectLists(a, Fields(p));
    ObjectLists(a, ToValue(p).fields);
  }

  /** Every payload there is comes out of the scrubber free of ids. */
  lemma PayloadIsFree(a: Aliases, p: Payload)
    requires Sound(a)
    ensures Free(a, ScrubValue(a, ToValue(p)))
  {
    PayloadLists(a, p);
    ScrubbedExactlyWhen(a, ToValue(p));
  }

  // ------------------------------------------------------------ shortened texts

  const FIELD_CHARS_MAX: nat := 600
  const ELLIPSIS: char := '\U{2026}'

  type Spacing = char -> bool

  /** White space ends a token. */
  ghost predicate Spaces(space: Spacing) { forall c :: space(c) ==> Boundary(c) }

  function TrimEnd(space: Spacing, s: string): (t: string)
    ensures t <= s && (t == s || space(s[|t|]))
    ensures t != "" ==> !space(t[|t| - 1])
  {
    if s != "" && space(s[|s| - 1]) then TrimEnd(space, s[..|s| - 1]) else s
  }

  function TrimText(space: Spacing, s: string): string {
    if |s| > FIELD_CHARS_MAX then TrimEnd(space, s[..FIELD_CHARS_MAX]) + [ELLIPSIS] else s
  }

  function TrimValue(space: Spacing, v: Json): Json
    decreases v
  {
    match v
    case Text(s) => Text(TrimText(space, s))
    case List(items) => List(seq(|items|, i requires 0 <= i < |items| => TrimValue(space, items[i])))
    case Object(fields) =>
      Object(seq(|fields|, i requires 0 <= i < |fields| => Field(fields[i].key, TrimValue(space, fields[i].value))))
    case _ => v
  }

  /** The cut falls inside a token that begins with a known id. */
  ghost predicate CutsId(a: Aliases, space: Spacing, s: string) {
    && |s| > FIELD_CHARS_MAX && !Boundary(s[FIELD_CHARS_MAX]) && !space(s[FIELD_CHARS_MAX - 1])
    && exists id, p: nat ::
         id in a.names && p + |id| == FIELD_CHARS_MAX && Begun(s, p, id, |id|) && (p == 0 || Boundary(s[p - 1]))
  }

  /** No known id ends in an ellipsis. */
  ghost predicate NoEllipsis(a: Aliases) {
    forall id :: id in a.names && id != "" ==> id[|id| - 1] != ELLIPSIS
  }

  lemma CutStands(a: Aliases, space: Spacing, s: string, id: string, p: nat)
    requires |s| > FIELD_CHARS_MAX && !space(s[FIELD_CHARS_MAX - 1])
    requires p + |id| == FIELD_CHARS_MAX && Begun(s, p, id, |id|) && (p == 0 || Boundary(s[p - 1]))
    ensures Whole(TrimText(space, s), p, id)
  {
    var out := TrimText(space, s);
    assert out == s[..FIELD_CHARS_MAX] + [ELLIPSIS];
    forall k | 0 <= k < |id| ensures LowerChar(out[p + k]) == id[k] { assert out[p + k] == s[p + k]; }
  }

  /** An id in a shortened text stood in the text before, or is cut out of a longer token. */
  lemma StoodBefore(a: Aliases, space: Spacing, s: string, id: string, p: nat)
    requires Spaces(space) && NoEllipsis(a) && id in a.names && id != "" && |s| > FIELD_CHARS_MAX
    requires Whole(TrimText(space, s), p, id)
    ensures Whole(s, p, id) || CutsId(a, space, s)
  {
    var kept := TrimEnd(space, s[..FIELD_CHARS_MAX]);
    var out := kept + [ELLIPSIS];
    assert LowerChar(out[p + (|id| - 1)]) == id[|id| - 1];
    assert p + |id| <= |kept|;
    forall k | 0 <= k < |id| ensures LowerChar(s[p + k]) == id[k] { assert LowerChar(out[p + k]) == id[k]; }
    if p > 0 { assert out[p - 1] == s[p - 1]; }
    if p + |id| < |kept| { assert out[p + |id|] == s[p + |id|]; }
    if |kept| == FIELD_CHARS_MAX == p + |id| {
      assert Begun(s, p, id, |id|) && kept == s[..FIELD_CHARS_MAX];
    } else if |kept| < FIELD_CHARS_MAX {
      assert space(s[..FIELD_CHARS_MAX][|kept|]);
    }
  }

  lemma TrimTextExactlyWhen(a: Aliases, space: Spacing, s: string)
    requires a.Valid() && Spaces(space) && NoEllipsis(a) && Clean(a, s)
    ensures Clean(a, TrimText(space, s)) <==> !CutsId(a, space, s)
  {
    if CutsId(a, space, s) {
      var id, p: nat :| id in a.names && p + |id| == FIELD_CHARS_MAX && Begun(s, p, id, |id|)
        && (p == 0 || Boundary(s[p - 1]));
      CutStands(a, space, s, id, p);
    } else if |s| > FIELD_CHARS_MAX {
      forall p: nat, id | id in a.names ensures !Whole(TrimText(space, s), p, id) {
        if Whole(TrimText(space, s), p, id) { StoodBefore(a, space, s, id, p); }
      }
    }
  }

  /** No text of the value holds a known id. */
  ghost predicate Silent(a: Aliases, v: Json)
    decreases v
  {
    match v
    case Text(s) => Clean(a, s)
    case List(items) => forall i :: 0 <= i < |items| ==> Silent(a, items[i])
    case Object(fields) => forall i :: 0 <= i < |fields| ==> Silent(a, fields[i].value)
    case _ => true
  }

  /** Shortening cuts no text of the value so that an id is left. */
  ghost predicate NoCuts(a: Aliases, space: Spacing, v: Json)
    decreases v
  {
    match v
    case Text(s) => !CutsId(a, space, s)
    case List(items) => forall i :: 0 <= i < |items| ==> NoCuts(a, space, items[i])
    case Object(fields) => forall i :: 0 <= i < |fields| ==> NoCuts(a, space, fields[i].value)
    case _ => true
  }

  lemma {:induction false} TrimExactlyWhen(a: Aliases, space: Spacing, v: Json)
    requires a.Valid() && Spaces(space) && NoEllipsis(a) && Silent(a, v)
    ensures Silent(a, TrimValue(space, v)) <==> NoCuts(a, space, v)
    decreases v
  {
    match v
    case Text(s) => TrimTextExactlyWhen(a, space, s);
    case List(items) =>
      var now := TrimValue(space, v).items;
      forall i | 0 <= i < |items| ensures Silent(a, now[i]) <==> NoCuts(a, space, items[i]) {
        TrimExactlyWhen(a, space, items[i]);
      }
    case Object(fields) =>
      var now := TrimValue(space, v).fields;
      forall i | 0 <= i < |fields| ensures Silent(a, now[i].value) <==> NoCuts(a, space, fields[i].value) {
        TrimExactlyWhen(a, space, fields[i].value);
      }
    case _ =>
  }

  lemma {:induction false} FreeIsSilent(a: Aliases, v: Json)
    requires Free(a, v)
    ensures Silent(a, v)
    decreases v, 0
  {
    match v
    case List(items) => FreeItemsSilent(a, items);
    case Object(fields) => FreeFieldsSilent(a, fields);
    case _ =>
  }

  lemma {:induction false} FreeItemsSilent(a: Aliases, items: seq<Json>)
    requires FreeItems(a, items)
    ensures forall i :: 0 <= i < |items| ==> Silent(a, items[i])
    decreases items
  {
    if items != [] {
      FreeIsSilent(a, items[0]);
      FreeItemsSilent(a, items[1..]);
      forall i | 0 < i < |items| ensures Silent(a, items[i]) { assert items[i] == items[1..][i - 1]; }
    }
  }

  lemma {:induction false} FreeFieldsSilent(a: Aliases, fields: seq<Field>)
    requires FreeFields(a, fields)
    ensures forall i :: 0 <= i < |fields| ==> Silent(a, fields[i].value)
    decreases fields
  {
    if fields != [] {
      FreeIsSilent(a, fields[0].value);
      FreeFieldsSilent(a, fields[1..]);
      forall i | 0 < i < |fields| ensures Silent(a, fields[i].value) { assert fields[i] == fields[1..][i - 1]; }
    }
  }

  /** Short texts stay; a long one keeps its first six hundred characters up to the last that is no
      blank, and an ellipsis. */
  lemma TrimKeeps(space: Spacing, s: string)
    ensures |s| <= 600 ==> TrimText(space, s) == s
    ensures |s| > 600 ==>
      var t := TrimText(space, s);
      && t != "" && t[|t| - 1] == '\U{2026}' && |t| <= 601 && t[..|t| - 1] <= s
      && (forall k :: |t| - 1 <= k < 600 ==> space(s[k])) && (|t| > 1 ==> !space(s[|t| - 2]))
  {
    if |s| > 600 {
      TrimEndIs(space, s[..600]);
      var kept := TrimEnd(space, s[..600]);
      assert TrimText(space, s)[..|kept|] == kept;
    }
  }

  lemma {:induction false} TrimEndIs(space: Spacing, s: string)
    ensures forall k :: |TrimEnd(space, s)| <= k < |s| ==> space(s[k])
  {
    if s != "" && space(s[|s| - 1]) { TrimEndIs(space, s[..|s| - 1]); }
  }

  // ----------------------------------------------------------------- the prompt

  const RECEIPTS_MAX: nat := 6

  datatype Node = Node(id: string, members: seq<string>, article: string, run: string, title: string,
                       subtype: string, status: string)

  datatype Edge = Edge(id: string, members: seq<string>, title: string, status: string, rationale: string,
                       receipts: seq<string>)

  /** What the prompt says of a record; no `record` when it has no payload or lost it to the size
      limit. */
  datatype ShownNode = ShownNode(title: string, subtype: string, status: string, record: Option<Json>)

  datatype ShownEdge = ShownEdge(title: string, status: string, rationale: string, receipts: seq<string>,
                                 record: Option<Json>)

  datatype Shown = Shown(seed: string, nodes: seq<ShownNode>, edges: seq<ShownEdge>)

  function ShowRecord(a: Aliases, space: Spacing, p: Option<Json>): Option<Json> {
    if p.Some? then Some(TrimValue(space, ScrubValue(a, p.value))) else None
  }

  function ShowNode(a: Aliases, space: Spacing, n: Node, p: Option<Json>): ShownNode {
    ShownNode(ScrubText(a, n.title), n.subtype, n.status, ShowRecord(a, space, p))
  }

  /** Of the receipts only the number is limited. */
  function Receipts(e: Edge): seq<string> {
    if |e.receipts| > RECEIPTS_MAX then e.receipts[..RECEIPTS_MAX] else e.receipts
  }

  function ShowEdge(a: Aliases, space: Spacing, e: Edge, p: Option<Json>): ShownEdge {
    ShownEdge(ScrubText(a, e.title), e.status, ScrubText(a, e.rationale), Receipts(e), ShowRecord(a, space, p))
  }

  /** The prompt of the records that are kept, each with the payload that is. */
  function Show(a: Aliases, space: Spacing, root: string, nodes: seq<(Node, Option<Json>)>,
                edges: seq<(Edge, Option<Json>)>): Shown {
    Shown(ScrubText(a, root), ShowNodes(a, space, nodes), ShowEdges(a, space, edges))
  }

  function ShowNodes(a: Aliases, space: Spacing, nodes: seq<(Node, Option<Json>)>): seq<ShownNode> {
    seq(|nodes|, i requires 0 <= i < |nodes| => ShowNode(a, space, nodes[i].0, nodes[i].1))
  }

  function ShowEdges(a: Aliases, space: Spacing, edges: seq<(Edge, Option<Json>)>): seq<ShownEdge> {
    seq(|edges|, i requires 0 <= i < |edges| => ShowEdge(a, space, edges[i].0, edges[i].1))
  }

  ghost predicate IsPayload(v: Json) { exists p: Payload :: v == ToValue(p) }

  ghost predicate ArePayloads<T>(records: seq<(T, Option<Json>)>) {
    forall i :: 0 <= i < |records| && records[i].1.Some? ==> IsPayload(records[i].1.value)
  }

  ghost predicate RecordSilent(a: Aliases, record: Option<Json>) { record.Some? ==> Silent(a, record.value) }

  ghost predicate NodeSilent(a: Aliases, n: ShownNode) {
    Clean(a, n.title) && Clean(a, n.subtype) && Clean(a, n.status) && RecordSilent(a, n.record)
  }

  ghost predicate EdgeSilent(a: Aliases, e: ShownEdge) {
    Clean(a, e.title) && Clean(a, e.status) && Clean(a, e.rationale) && RecordSilent(a, e.record)
      && AllClean(a, e.receipts)
  }

  ghost predicate AllClean(a: Aliases, texts: seq<string>) { forall t :: t in texts ==> Clean(a, t) }

  ghost predicate NodesSilent(a: Aliases, nodes: seq<ShownNode>) { forall n :: n in nodes ==> NodeSilent(a, n) }

  ghost predicate EdgesSilent(a: Aliases, edges: seq<ShownEdge>) { forall e :: e in edges ==> EdgeSilent(a, e) }

  /** No text of the prompt holds a known id. */
  ghost predicate PromptSilent(a: Aliases, p: Shown) {
    Clean(a, p.seed) && NodesSilent(a, p.nodes) && EdgesSilent(a, p.edges)
  }

  ghost predicate RecordUncut(a: Aliases, space: Spacing, p: Option<Json>) {
    p.Some? ==> NoCuts(a, space, ScrubValue(a, p.value))
  }

  /** What reaches the prompt unscrubbed of a node holds no id, and no cut makes one. */
  ghost predicate NodeSafe(a: Aliases, space: Spacing, n: Node, p: Option<Json>) {
    Clean(a, n.subtype) && Clean(a, n.status) && RecordUncut(a, space, p)
  }

  ghost predicate EdgeSafe(a: Aliases, space: Spacing, e: Edge, p: Option<Json>) {
    Clean(a, e.status) && AllClean(a, Receipts(e)) && RecordUncut(a, space, p)
  }

  ghost predicate NodesSafe(a: Aliases, space: Spacing, nodes: seq<(Node, Option<Json>)>) {
    forall r :: r in nodes ==> NodeSafe(a, space, r.0, r.1)
  }

  ghost predicate EdgesSafe(a: Aliases, space: Spacing, edges: seq<(Edge, Option<Json>)>) {
    forall r :: r in edges ==> EdgeSafe(a, space, r.0, r.1)
  }

  lemma RecordExactlyWhen(a: Aliases, space: Spacing, p: Option<Json>)
    requires Sound(a) && Spaces(space) && NoEllipsis(a) && (p.Some? ==> IsPayload(p.value))
    ensures RecordSilent(a, ShowRecord(a, space, p)) <==> RecordUncut(a, space, p)
  {
    if p.Some? {
      var q: Payload :| p.value == ToValue(q);
      PayloadIsFree(a, q);
      FreeIsSilent(a, ScrubValue(a, p.value));
      TrimExactlyWhen(a, space, ScrubValue(a, p.value));
    }
  }

  lemma NodeExactlyWhen(a: Aliases, space: Spacing, n: Node, p: Option<Json>)
    requires Sound(a) && Spaces(space) && NoEllipsis(a) && (p.Some? ==> IsPayload(p.value))
    ensures NodeSilent(a, ShowNode(a, space, n, p)) <==> NodeSafe(a, space, n, p)
  {
    ScrubTextClean(a, n.title);
    RecordExactlyWhen(a, space, p);
  }

  lemma EdgeExactlyWhen(a: Aliases, space: Spacing, e: Edge, p: Option<Json>)
    requires Sound(a) && Spaces(space) && NoEllipsis(a) && (p.Some? ==> IsPayload(p.value))
    ensures EdgeSilent(a, ShowEdge(a, space, e, p)) <==> EdgeSafe(a, space, e, p)
  {
    ScrubTextClean(a, e.title);
    ScrubTextClean(a, e.rationale);
    RecordExactlyWhen(a, space, p);
  }

  lemma Pointwise<S, T>(shown: seq<S>, records: seq<T>, silent: S -> bool, safe: T -> bool)
    requires |shown| == |records| && forall i :: 0 <= i < |shown| ==> (silent(shown[i]) <==> safe(records[i]))
    ensures (forall s :: s in shown ==> silent(s)) <==> (forall r :: r in records ==> safe(r))
  {
    forall i | 0 <= i < |shown| ensures shown[i] in shown && records[i] in records {}
  }

  lemma NodesExactlyWhen(a: Aliases, space: Spacing, nodes: seq<(Node, Option<Json>)>)
    requires Sound(a) && Spaces(space) && NoEllipsis(a) && ArePayloads(nodes)
    ensures NodesSilent(a, ShowNodes(a, space, nodes)) <==> NodesSafe(a, space, nodes)
  {
    var shown := ShowNodes(a, space, nodes);
    var silent, safe := (n: ShownNode) => NodeSilent(a, n), (r: (Node, Option<Json>)) => NodeSafe(a, space, r.0, r.1);
    forall i | 0 <= i < |nodes| ensures silent(shown[i]) <==> safe(nodes[i]) {
      NodeExactlyWhen(a, space, nodes[i].0, nodes[i].1);
    }
    Pointwise(shown, nodes, silent, safe);
    assert NodesSilent(a, shown) <==> forall n :: n in shown ==> silent(n);
    assert NodesSafe(a, space, nodes) <==> forall r :: r in nodes ==> safe(r);
  }

  lemma EdgesExactlyWhen(a: Aliases, space: Spacing, edges: seq<(Edge, Option<Json>)>)
    requires Sound(a) && Spaces(space) && NoEllipsis(a) && ArePayloads(edges)
    ensures EdgesSilent(a, ShowEdges(a, space, edges)) <==> EdgesSafe(a, space, edges)
  {
    var shown := ShowEdges(a, space, edges);
    var silent, safe := (e: ShownEdge) => EdgeSilent(a, e), (r: (Edge, Option<Json>)) => EdgeSafe(a, space, r.0, r.1);
    forall i | 0 <= i < |edges| ensures silent(shown[i]) <==> safe(edges[i]) {
      EdgeExactlyWhen(a, space, edges[i].0, edges[i].1);
    }
    Pointwise(shown, edges, silent, safe);
    assert EdgesSilent(a, shown) <==> forall e :: e in shown ==> silent(e);
    assert EdgesSafe(a, space, edges) <==> forall r :: r in edges ==> safe(r);
  }

  /** The prompt holds a known id if and only if a status, a subtype or a kept receipt does, or
      shortening cuts one out of a longer token. */
  lemma PromptExactlyWhen(a: Aliases, space: Spacing, root: string, nodes: seq<(Node, Option<Json>)>,
                          edges: seq<(Edge, Option<Json>)>)
    requires Sound(a) && Spaces(space) && NoEllipsis(a) && ArePayloads(nodes) && ArePayloads(edges)
    ensures PromptSilent(a, Show(a, space, root, nodes, edges)) <==>
      NodesSafe(a, space, nodes) && EdgesSafe(a, space, edges)
  {
    ScrubTextClean(a, root);
    NodesExactlyWhen(a, space, nodes);
    EdgesExactlyWhen(a, space, edges);
  }

  /** Every record that is kept is shown, in order. */
  lemma AllAreShown(a: Aliases, space: Spacing, root: string, nodes: seq<(Node, Option<Json>)>,
                    edges: seq<(Edge, Option<Json>)>)
    requires a.Valid()
    ensures var p := Show(a, space, root, nodes, edges);
            && (Clean(a, root) ==> p.seed == root) && |p.nodes| == |nodes| && |p.edges| == |edges|
            && (forall i :: 0 <= i < |nodes| ==> p.nodes[i] == ShowNode(a, space, nodes[i].0, nodes[i].1))
            && (forall i :: 0 <= i < |edges| ==> p.edges[i] == ShowEdge(a, space, edges[i].0, edges[i].1))
  {
    if Clean(a, root) { CleanTextUnchanged(a, root, 0); assert root[0..] == root; }
  }

  /** What holds no known id is shown as it is, with at most six receipts. */
  lemma CleanIsShown(a: Aliases, space: Spacing, n: Node, e: Edge, p: Option<Json>)
    requires a.Valid()
    ensures var shown := ShowNode(a, space, n, p);
            && (Clean(a, n.title) ==> shown.title == n.title) && shown.subtype == n.subtype && shown.status == n.status
            && (shown.record.Some? <==> p.Some?)
    ensures var shown := ShowEdge(a, space, e, p);
            && (Clean(a, e.title) ==> shown.title == e.title) && shown.status == e.status
            && (Clean(a, e.rationale) ==> shown.rationale == e.rationale) && (shown.record.Some? <==> p.Some?)
            && shown.receipts <= e.receipts && |shown.receipts| == if |e.receipts| < 6 then |e.receipts| else 6
    ensures p.Some? && Plain(a, p.value) ==> ShowRecord(a, space, p) == Some(TrimValue(space, p.value))
  {
    if Clean(a, n.title) { CleanTextUnchanged(a, n.title, 0); assert n.title[0..] == n.title; }
    if Clean(a, e.title) { CleanTextUnchanged(a, e.title, 0); assert e.title[0..] == e.title; }
    if Clean(a, e.rationale) { CleanTextUnchanged(a, e.rationale, 0); assert e.rationale[0..] == e.rationale; }
    if p.Some? && Plain(a, p.value) { PlainStays(a, p.value); }
  }

  // ------------------------------------------------------- the table of known ids

  predicate Digit(c: char) { '0' <= c <= '9' }

  /** Ids of one byte and ids of digits only are left alone. */
  predicate Scrubbable(id: string) { Bytes(id) >= 2 && exists k :: 0 <= k < |id| && !Digit(id[k]) }

  type Names = map<string, string>

  /** What an id is shown as stays when it is added again. */
  function Add(names: Names, id: string, alias: string): Names {
    if Scrubbable(id) && Lower(id) !in names then names[Lower(id) := alias] else names
  }

  function AddAll(names: Names, ids: seq<string>, alias: string): Names {
    if ids == [] then names else Add(AddAll(names, ids[..|ids| - 1], alias), ids[|ids| - 1], alias)
  }

  /** A record's reference takes the place of what its ids were shown as. */
  function Rename(names: Names, ids: seq<string>, alias: string): Names {
    if ids == [] then names
    else Add(Rename(names, ids[..|ids| - 1], alias) - {Lower(ids[|ids| - 1])}, ids[|ids| - 1], alias)
  }

  /** The ids in the id fields and id lists of a payload. */
  function Collect(v: Json): seq<string>
    decreases v
  {
    match v
    case List(items) => CollectItems(items)
    case Object(fields) => CollectFields(fields)
    case _ => []
  }

  function CollectItems(items: seq<Json>): seq<string>
    decreases items
  {
    if items == [] then [] else Collect(items[0]) + CollectItems(items[1..])
  }

  function CollectFields(fields: seq<Field>): seq<string>
    decreases fields
  {
    if fields == [] then [] else CollectField(fields[0]) + CollectFields(fields[1..])
  }

  function CollectField(f: Field): seq<string>
    decreases f
  {
    if f.value.Text? && f.key in ID_KEYS then [f.value.s]
    else if f.value.List? && f.key in ID_LIST_KEYS then TextItems(f.value.items)
    else Collect(f.value)
  }

  function TextItems(items: seq<Json>): seq<string> {
    if items == [] then [] else (if items[0].Text? then [items[0].s] else []) + TextItems(items[1..])
  }

  function Decimal(n: nat): (d: string)
    ensures d != "" && forall k :: 0 <= k < |d| ==> Digit(d[k])
  {
    if n < 10 then [('0' as int + n) as char] else Decimal(n / 10) + [('0' as int + n % 10) as char]
  }

  function NodeRef(n: nat): string { "N" + Decimal(n) }

  function EdgeRef(n: nat): string { "E" + Decimal(n) }

  function NodeIds(n: Node): seq<string> { [n.id] + n.members + [n.article] }

  function EdgeIds(e: Edge): seq<string> { [e.id] + e.members }

  function AfterPayloads(payloads: seq<Payload>): Names {
    if payloads == [] then map[]
    else AddAll(AfterPayloads(payloads[..|payloads| - 1]), Collect(ToValue(payloads[|payloads| - 1])), OUTSIDE)
  }

  function AfterNodes(names: Names, nodes: seq<Node>): Names {
    if nodes == [] then names
    else
      var n := nodes[|nodes| - 1];
      Add(Rename(AfterNodes(names, nodes[..|nodes| - 1]), NodeIds(n), NodeRef(|nodes|)), n.run, OUTSIDE)
  }

  function AfterEdges(names: Names, edges: seq<Edge>): Names {
    if edges == [] then names
    else Rename(AfterEdges(names, edges[..|edges| - 1]), EdgeIds(edges[|edges| - 1]), EdgeRef(|edges|))
  }

  /** What each known id is shown as. */
  function Table(payloads: seq<Payload>, nodes: seq<Node>, edges: seq<Edge>): Names {
    AfterEdges(AfterNodes(AfterPayloads(payloads), nodes), edges)
  }

  /** The ids that a payload brings along. */
  predicate Brings(p: Payload, id: string) {
    match p
    case Actor(_, _, _, _, _) => false
    case Claim(actors, _, _, _, _, _) => RefersTo(actors, id)
    case Inference(premises, actors, _, _, _, _) => id in premises || RefersTo(actors, id)
    case Link(source, target, _, _, _, _) => id == EndId(source) || id == EndId(target)
    case Related(source, target, shared, _, _, _, _) => id == EndId(source) || id == EndId(target) || id in shared
  }

  predicate RefersTo(actors: seq<ActorRef>, id: string) { exists i :: 0 <= i < |actors| && actors[i].actor == id }

  function EndId(e: Endpoint): string {
    match e
    case MemoryEnd(memory, _) => memory
    case ArticleEnd(_, article, _) => article
    case SourceEnd(_, source, _) => source
  }

  lemma {:induction false} TextItemsAre(ss: seq<string>)
    ensures TextItems(Texts(ss).items) == ss
  {
    if ss != [] {
      assert Texts(ss).items[1..] == Texts(ss[1..]).items;
      TextItemsAre(ss[1..]);
    }
  }

  lemma {:induction false} NothingInTexts(ss: seq<string>)
    ensures CollectItems(Texts(ss).items) == []
  {
    if ss != [] {
      assert Texts(ss).items[1..] == Texts(ss[1..]).items;
      NothingInTexts(ss[1..]);
    }
  }

  lemma {:induction false} CollectIn(fields: seq<Field>, id: string)
    ensures id in CollectFields(fields) <==> exists i :: 0 <= i < |fields| && id in CollectField(fields[i])
  {
    if fields != [] {
      CollectIn(fields[1..], id);
      assert forall i :: 0 <= i < |fields| - 1 ==> fields[1..][i] == fields[i + 1];
      if i :| 0 <= i < |fields| && id in CollectField(fields[i]) {
        assert i > 0 ==> id in CollectField(fields[1..][i - 1]);
      }
    }
  }

  lemma CollectEnd(e: Endpoint, id: string)
    ensures id in Collect(EndpointValue(e)) <==> id == EndId(e)
  {
    var fs := EndpointValue(e).fields;
    CollectIn(fs, id);
    assert CollectField(fs[0]) == []
      && CollectField(fs[2]) == (if e.SourceEnd? || e.ArticleEnd? then [EndId(e)] else []);
    assert CollectField(fs[1]) == if e.MemoryEnd? then [EndId(e)] else [];
    assert |fs| > 3 ==> |fs| == 4 && CollectField(fs[3]) == [];
  }

  lemma CollectRef(r: ActorRef, id: string)
    ensures id in Collect(ActorRefValue(r)) <==> id == r.actor
  {
    var fs := ActorRefValue(r).fields;
    CollectIn(fs, id);
    assert CollectField(fs[0]) == [r.actor] && CollectField(fs[1]) == [] && CollectField(fs[2]) == [];
  }

  lemma {:induction false} CollectRefs(rs: seq<ActorRef>, id: string)
    ensures id in CollectItems(ActorRefs(rs).items) <==> RefersTo(rs, id)
  {
    if rs != [] {
      var rest := rs[1..];
      assert ActorRefs(rs).items[1..] == ActorRefs(rest).items && ActorRefs(rs).items[0] == ActorRefValue(rs[0]);
      CollectRef(rs[0], id);
      CollectRefs(rest, id);
      if RefersTo(rs, id) { var i :| 0 <= i < |rs| && rs[i].actor == id; assert i > 0 ==> rest[i - 1] == rs[i]; }
      if RefersTo(rest, id) { var i :| 0 <= i < |rest| && rest[i].actor == id; assert rs[i + 1] == rest[i]; }
    }
  }

  /** Under these keys only a nested value can bring ids. */
  predicate Carries(key: string) { key !in ID_KEYS && key !in ID_LIST_KEYS }

  lemma CollectText(key: string, s: string)
    requires Carries(key)
    ensures CollectField(Field(key, Text(s))) == []
  {
  }

  lemma CollectTexts(key: string, ss: seq<string>)
    requires Carries(key)
    ensures CollectField(Field(key, Texts(ss))) == []
  {
    NothingInTexts(ss);
  }

  lemma PersonKeys()
    ensures Carries("subtype") && Carries("display_name") && Carries("aliases") && Carries("identifiers")
    ensures Carries("identity_state")
  {
  }

  lemma ClaimKeys()
    ensures Carries("actors") && Carries("predicate") && Carries("object") && Carries("modality")
    ensures Carries("passages") && Carries("assessment")
  {
  }

  lemma InferenceKeys()
    ensures Carries("actors") && Carries("reasoning") && Carries("limitations") && Carries("support_state")
    ensures Carries("coverage_receipt") && "premise_claims" in ID_LIST_KEYS && "premise_claims" !in ID_KEYS
  {
  }

  lemma LinkKeys()
    ensures Carries("source") && Carries("target") && Carries("relation") && Carries("rationale")
    ensures Carries("receipts") && Carries("promoted_from")
  {
  }

  lemma RelatedKeys()
    ensures Carries("source") && Carries("target") && Carries("basis") && Carries("interpretation")
    ensures Carries("verification_gap") && Carries("source_revisions")
    ensures "shared_actors" in ID_LIST_KEYS && "shared_actors" !in ID_KEYS
  {
  }

  lemma ActorBrings(p: Payload, id: string)
    requires p.Actor?
    ensures id !in CollectFields(Fields(p))
  {
    PersonKeys();
    CollectText("subtype", p.subtype);
    CollectText("display_name", p.name);
    CollectTexts("aliases", p.aliases);
    CollectTexts("identifiers", p.identifiers);
    CollectText("identity_state", p.identity);
    CollectIn(Fields(p), id);
  }

  lemma ClaimBrings(p: Payload, id: string)
    requires p.Claim?
    ensures id in CollectFields(Fields(p)) <==> RefersTo(p.actors, id)
  {
    ClaimKeys();
    CollectRefs(p.actors, id);
    CollectText("predicate", p.relation);
    CollectText("object", p.about);
    CollectText("modality", p.modality);
    CollectTexts("passages", p.passages);
    CollectText("assessment", p.assessment);
    CollectIn(Fields(p), id);
    assert Fields(p)[0] == Field("actors", ActorRefs(p.actors));
  }

  lemma InferenceBrings(p: Payload, id: string)
    requires p.Inference?
    ensures id in CollectFields(Fields(p)) <==> id in p.premises || RefersTo(p.actors, id)
  {
    InferenceKeys();
    TextItemsAre(p.premises);
    CollectRefs(p.actors, id);
    CollectText("reasoning", p.reasoning);
    CollectText("limitations", p.limitations);
    CollectText("support_state", p.support);
    CollectText("coverage_receipt", p.coverage);
    CollectIn(Fields(p), id);
    assert Fields(p)[0] == Field("premise_claims", Texts(p.premises));
    assert Fields(p)[1] == Field("actors", ActorRefs(p.actors));
  }

  lemma LinkBrings(p: Payload, id: string)
    requires p.Link?
    ensures id in CollectFields(Fields(p)) <==> id == EndId(p.source) || id == EndId(p.target)
  {
    LinkKeys();
    CollectEnd(p.source, id);
    CollectEnd(p.target, id);
    CollectText("relation", p.relation);
    CollectText("rationale", p.rationale);
    CollectTexts("receipts", p.receipts);
    if p.promoted.Some? { CollectText("promoted_from", p.promoted.value); }
    CollectIn(Fields(p), id);
    assert Fields(p)[0] == Field("source", EndpointValue(p.source));
    assert Fields(p)[1] == Field("target", EndpointValue(p.target));
  }

  lemma RelatedBrings(p: Payload, id: string)
    requires p.Related?
    ensures id in CollectFields(Fields(p)) <==> id == EndId(p.source) || id == EndId(p.target) || id in p.shared
  {
    RelatedKeys();
    CollectEnd(p.source, id);
    CollectEnd(p.target, id);
    TextItemsAre(p.shared);
    CollectText("basis", p.basis);
    CollectText("interpretation", p.interpretation);
    CollectText("verification_gap", p.gap);
    CollectTexts("source_revisions", p.revisions);
    CollectIn(Fields(p), id);
    assert Fields(p)[0] == Field("source", EndpointValue(p.source));
    assert Fields(p)[1] == Field("target", EndpointValue(p.target));
    assert Fields(p)[2] == Field("shared_actors", Texts(p.shared));
  }

  /** A payload's known ids are its premises, its actors, its shared actors and its ends. */
  lemma CollectedExactlyWhen(p: Payload, id: string)
    ensures id in Collect(ToValue(p)) <==> Brings(p, id)
  {
    CollectIn(ToValue(p).fields, id);
    assert ToValue(p).fields[1].key == "payload";
    match p {
      case Actor(_, _, _, _, _) => ActorBrings(p, id);
      case Claim(_, _, _, _, _, _) => ClaimBrings(p, id);
      case Inference(_, _, _, _, _, _) => InferenceBrings(p, id);
      case Link(_, _, _, _, _, _) => LinkBrings(p, id);
      case Related(_, _, _, _, _, _, _) => RelatedBrings(p, id);
    }
  }

  predicate Mentions(ids: seq<string>, x: string) { exists i :: 0 <= i < |ids| && Lower(ids[i]) == x }

  lemma MentionsMore(ids: seq<string>, x: string)
    requires ids != []
    ensures Mentions(ids, x) <==> Mentions(ids[..|ids| - 1], x) || Lower(ids[|ids| - 1]) == x
  {
    if Mentions(ids, x) {
      var i :| 0 <= i < |ids| && Lower(ids[i]) == x;
      assert i < |ids| - 1 ==> Lower(ids[..|ids| - 1][i]) == x;
    }
    if Mentions(ids[..|ids| - 1], x) {
      var i :| 0 <= i < |ids| - 1 && Lower(ids[..|ids| - 1][i]) == x;
      assert Lower(ids[i]) == x;
    }
  }

  lemma {:induction false} BytesLower(id: string)
    ensures Bytes(Lower(id)) == Bytes(id)
  {
    if id != "" {
      assert Lower(id)[1..] == Lower(id[1..]);
      BytesLower(id[1..]);
    }
  }

  lemma ScrubbableLower(id: string)
    ensures Scrubbable(Lower(id)) <==> Scrubbable(id)
  {
    BytesLower(id);
    assert forall k :: 0 <= k < |id| ==> (Digit(Lower(id)[k]) <==> Digit(id[k]));
    if Scrubbable(id) { var k :| 0 <= k < |id| && !Digit(id[k]); assert !Digit(Lower(id)[k]); }
    if Scrubbable(Lower(id)) { var k :| 0 <= k < |Lower(id)| && !Digit(Lower(id)[k]); assert !Digit(id[k]); }
  }

  lemma AddIs(names: Names, id: string, alias: string, x: string)
    requires Scrubbable(x)
    ensures var now := Add(names, id, alias);
            && (x in now <==> x in names || Lower(id) == x)
            && (x in now ==> now[x] == if x in names then names[x] else alias)
  {
    ScrubbableLower(id);
  }

  lemma {:induction false} RenameIs(names: Names, ids: seq<string>, alias: string, x: string)
    requires Scrubbable(x)
    ensures var now := Rename(names, ids, alias);
            if Mentions(ids, x) then x in now && now[x] == alias
            else (x in now <==> x in names) && (x in names ==> now[x] == names[x])
  {
    if ids != [] {
      RenameIs(names, ids[..|ids| - 1], alias, x);
      MentionsMore(ids, x);
      ScrubbableLower(ids[|ids| - 1]);
    }
  }

  lemma {:induction false} AddAllIs(names: Names, ids: seq<string>, alias: string, x: string)
    requires Scrubbable(x)
    ensures var now := AddAll(names, ids, alias);
            && (x in now <==> x in names || Mentions(ids, x))
            && (x in now ==> now[x] == if x in names then names[x] else alias)
  {
    if ids != [] {
      AddAllIs(names, ids[..|ids| - 1], alias, x);
      MentionsMore(ids, x);
      AddIs(AddAll(names, ids[..|ids| - 1], alias), ids[|ids| - 1], alias, x);
    }
  }

  /** A node has its own id, its members' and its article's; an edge its own and its members'. */
  lemma MentionsExactlyWhen(n: Node, e: Edge, x: string)
    ensures Mentions(NodeIds(n), x) <==>
      x == Lower(n.id) || x == Lower(n.article) || exists id :: id in n.members && x == Lower(id)
    ensures Mentions(EdgeIds(e), x) <==> x == Lower(e.id) || exists id :: id in e.members && x == Lower(id)
  {
    MentionsIn(NodeIds(n), x);
    MentionsIn(EdgeIds(e), x);
    assert forall id :: id in NodeIds(n) <==> id == n.id || id in n.members || id == n.article;
    assert forall id :: id in EdgeIds(e) <==> id == e.id || id in e.members;
  }

  lemma MentionsIn(ids: seq<string>, x: string)
    ensures Mentions(ids, x) <==> exists id :: id in ids && x == Lower(id)
  {
    if id :| id in ids && x == Lower(id) { var i :| 0 <= i < |ids| && ids[i] == id; }
  }

  /** The number of the last node, or edge, with the id; 0 if there is none. */
  function LastNode(nodes: seq<Node>, x: string): (n: nat)
    ensures n <= |nodes| && (n > 0 ==> Mentions(NodeIds(nodes[n - 1]), x))
    ensures forall i :: n <= i < |nodes| ==> !Mentions(NodeIds(nodes[i]), x)
  {
    if nodes == [] then 0
    else if Mentions(NodeIds(nodes[|nodes| - 1]), x) then |nodes|
    else LastNode(nodes[..|nodes| - 1], x)
  }

  function LastEdge(edges: seq<Edge>, x: string): (n: nat)
    ensures n <= |edges| && (n > 0 ==> Mentions(EdgeIds(edges[n - 1]), x))
    ensures forall i :: n <= i < |edges| ==> !Mentions(EdgeIds(edges[i]), x)
  {
    if edges == [] then 0
    else if Mentions(EdgeIds(edges[|edges| - 1]), x) then |edges|
    else LastEdge(edges[..|edges| - 1], x)
  }

  predicate Collected(payloads: seq<Payload>, x: string) {
    exists i :: 0 <= i < |payloads| && Mentions(Collect(ToValue(payloads[i])), x)
  }

  predicate IsRun(nodes: seq<Node>, x: string) { exists i :: 0 <= i < |nodes| && Lower(nodes[i].run) == x }

  lemma {:induction false} AfterPayloadsIs(payloads: seq<Payload>, x: string)
    requires Scrubbable(x)
    ensures var now := AfterPayloads(payloads);
            (x in now <==> Collected(payloads, x)) && (x in now ==> now[x] == OUTSIDE)
  {
    if payloads != [] {
      var front, last := payloads[..|payloads| - 1], payloads[|payloads| - 1];
      AfterPayloadsIs(front, x);
      AddAllIs(AfterPayloads(front), Collect(ToValue(last)), OUTSIDE, x);
      CollectedMore(payloads, x);
    }
  }

  lemma CollectedMore(payloads: seq<Payload>, x: string)
    requires payloads != []
    ensures Collected(payloads, x) <==>
      Collected(payloads[..|payloads| - 1], x) || Mentions(Collect(ToValue(payloads[|payloads| - 1])), x)
  {
    var front := payloads[..|payloads| - 1];
    if Collected(payloads, x) {
      var i :| 0 <= i < |payloads| && Mentions(Collect(ToValue(payloads[i])), x);
      assert i < |front| ==> front[i] == payloads[i];
    }
    if Collected(front, x) {
      var i :| 0 <= i < |front| && Mentions(Collect(ToValue(front[i])), x);
      assert payloads[i] == front[i];
    }
  }

  lemma IsRunMore(nodes: seq<Node>, x: string)
    requires nodes != []
    ensures IsRun(nodes, x) <==> IsRun(nodes[..|nodes| - 1], x) || Lower(nodes[|nodes| - 1].run) == x
  {
    var front := nodes[..|nodes| - 1];
    if IsRun(nodes, x) {
      var i :| 0 <= i < |nodes| && Lower(nodes[i].run) == x;
      assert i < |front| ==> front[i] == nodes[i];
    }
    if IsRun(front, x) {
      var i :| 0 <= i < |front| && Lower(front[i].run) == x;
      assert nodes[i] == front[i];
    }
  }

  lemma {:induction false} AfterNodesIs(names: Names, nodes: seq<Node>, x: string)
    requires Scrubbable(x)
    ensures var now, n := AfterNodes(names, nodes), LastNode(nodes, x);
            if n > 0 then x in now && now[x] == NodeRef(n)
            else
              && (x in now <==> x in names || IsRun(nodes, x))
              && (x in now ==> now[x] == if x in names then names[x] else OUTSIDE)
  {
    if nodes != [] {
      var front, last := nodes[..|nodes| - 1], nodes[|nodes| - 1];
      AfterNodesIs(names, front, x);
      RenameIs(AfterNodes(names, front), NodeIds(last), NodeRef(|nodes|), x);
      AddIs(Rename(AfterNodes(names, front), NodeIds(last), NodeRef(|nodes|)), last.run, OUTSIDE, x);
      IsRunMore(nodes, x);
    }
  }

  lemma {:induction false} AfterEdgesIs(names: Names, edges: seq<Edge>, x: string)
    requires Scrubbable(x)
    ensures var now, n := AfterEdges(names, edges), LastEdge(edges, x);
            if n > 0 then x in now && now[x] == EdgeRef(n)
            else (x in now <==> x in names) && (x in names ==> now[x] == names[x])
  {
    if edges != [] {
      var front := edges[..|edges| - 1];
      AfterEdgesIs(names, front, x);
      RenameIs(AfterEdges(names, front), EdgeIds(edges[|edges| - 1]), EdgeRef(|edges|), x);
    }
  }

  /** An id is shown as the last edge that has it, else as the last node that has it, else as
      lying outside when a payload or a run has it. */
  lemma TableIs(payloads: seq<Payload>, nodes: seq<Node>, edges: seq<Edge>, x: string)
    requires Scrubbable(x)
    ensures var t := Table(payloads, nodes, edges);
            if LastEdge(edges, x) > 0 then x in t && t[x] == EdgeRef(LastEdge(edges, x))
            else if LastNode(nodes, x) > 0 then x in t && t[x] == NodeRef(LastNode(nodes, x))
            else (x in t <==> Collected(payloads, x) || IsRun(nodes, x)) && (x in t ==> t[x] == OUTSIDE)
  {
    AfterPayloadsIs(payloads, x);
    AfterNodesIs(AfterPayloads(payloads), nodes, x);
    AfterEdgesIs(AfterNodes(AfterPayloads(payloads), nodes), edges, x);
  }

  lemma {:induction false} DecimalInjective(m: nat, n: nat)
    requires Decimal(m) == Decimal(n)
    ensures m == n
  {
    var d, e := Decimal(m), Decimal(n);
    assert d[|d| - 1] == e[|e| - 1];
    if m >= 10 || n >= 10 {
      assert m >= 10 && n >= 10 by { OneDigit(m); OneDigit(n); }
      assert Decimal(m / 10) == d[..|d| - 1] == e[..|e| - 1] == Decimal(n / 10);
      DecimalInjective(m / 10, n / 10);
    }
  }

  lemma OneDigit(n: nat)
    ensures |Decimal(n)| == 1 <==> n < 10
  {
    if n >= 10 { assert |Decimal(n)| == |Decimal(n / 10)| + 1; }
  }

  lemma RefsDiffer(m: nat, n: nat)
    ensures NodeRef(m) != EdgeRef(n) && NodeRef(m) != OUTSIDE
    ensures NodeRef(m) == NodeRef(n) ==> m == n
  {
    assert NodeRef(m)[0] == 'N' && EdgeRef(n)[0] == 'E' && OUTSIDE[0] == 'a';
    if NodeRef(m) == NodeRef(n) {
      assert NodeRef(m)[1..] == Decimal(m) && NodeRef(n)[1..] == Decimal(n);
      DecimalInjective(m, n);
    }
  }

  lemma LastNodeExactlyWhen(nodes: seq<Node>, x: string, i: nat)
    requires i < |nodes| && Mentions(NodeIds(nodes[i]), x)
    ensures LastNode(nodes, x) == i + 1 <==> forall j :: i < j < |nodes| ==> !Mentions(NodeIds(nodes[j]), x)
    ensures LastNode(nodes, x) > 0
  {
  }

  lemma NoEdgeExactlyWhen(edges: seq<Edge>, x: string)
    ensures LastEdge(edges, x) == 0 <==> forall e :: e in edges ==> !Mentions(EdgeIds(e), x)
  {
    var m := LastEdge(edges, x);
    if m > 0 { assert edges[m - 1] in edges; }
  }

  lemma OwnMention(n: Node)
    ensures Mentions(NodeIds(n), Lower(n.id))
  {
    assert Lower(NodeIds(n)[0]) == Lower(n.id);
  }

  /** A node's own id is shown as that node if and only if no edge has it among its ids, and no
      later node. */
  lemma OwnReferenceExactlyWhen(payloads: seq<Payload>, nodes: seq<Node>, edges: seq<Edge>, i: nat)
    requires i < |nodes| && Scrubbable(nodes[i].id)
    ensures var t, x := Table(payloads, nodes, edges), Lower(nodes[i].id);
            x in t && (t[x] == NodeRef(i + 1) <==>
              (forall e :: e in edges ==> !Mentions(EdgeIds(e), x)) &&
              (forall j :: i < j < |nodes| ==> !Mentions(NodeIds(nodes[j]), x)))
  {
    var x := Lower(nodes[i].id);
    ScrubbableLower(nodes[i].id);
    TableIs(payloads, nodes, edges, x);
    OwnMention(nodes[i]);
    LastNodeExactlyWhen(nodes, x, i);
    NoEdgeExactlyWhen(edges, x);
    RefsDiffer(i + 1, LastNode(nodes, x));
    RefsDiffer(i + 1, LastEdge(edges, x));
  }

  lemma MemberMention(e: Edge, id: string)
    requires id in e.members
    ensures Mentions(EdgeIds(e), Lower(id))
  {
    var m :| 0 <= m < |e.members| && e.members[m] == id;
    assert Lower(EdgeIds(e)[m + 1]) == Lower(id);
  }

  /** An id that an edge has among its members is shown as an edge, even if it is that of a node:
      a payload that names an entity is then shown naming an edge. */
  lemma MemberIsShownAsEdge(payloads: seq<Payload>, nodes: seq<Node>, edges: seq<Edge>, j: nat, id: string)
    requires Scrubbable(id) && j < |edges| && id in edges[j].members
    ensures var a := Aliases(Table(payloads, nodes, edges), []);
            exists k: nat :: j < k <= |edges| && Alias(a, id) == EdgeRef(k)
  {
    var x := Lower(id);
    ScrubbableLower(id);
    TableIs(payloads, nodes, edges, x);
    MemberMention(edges[j], id);
    assert LastEdge(edges, x) > j;
  }

  // ------------------------------------------------------------ when the table is sound

  /** What every id of a table is, and what it can be shown as. */
  ghost predicate Built(t: Names) {
    && (forall x :: x in t ==> Scrubbable(x) && Lower(x) == x)
    && forall x :: x in t ==> t[x] == OUTSIDE || exists n: nat :: t[x] == NodeRef(n) || t[x] == EdgeRef(n)
  }

  lemma LowerTwice(s: string)
    ensures Lower(Lower(s)) == Lower(s)
  {
  }

  lemma AddBuilt(t: Names, id: string, alias: string)
    requires Built(t) && (alias == OUTSIDE || exists n: nat :: alias == NodeRef(n) || alias == EdgeRef(n))
    ensures Built(Add(t, id, alias))
  {
    ScrubbableLower(id);
    LowerTwice(id);
  }

  lemma {:induction false} AddAllBuilt(t: Names, ids: seq<string>)
    requires Built(t)
    ensures Built(AddAll(t, ids, OUTSIDE))
  {
    if ids != [] {
      AddAllBuilt(t, ids[..|ids| - 1]);
      AddBuilt(AddAll(t, ids[..|ids| - 1], OUTSIDE), ids[|ids| - 1], OUTSIDE);
    }
  }

  lemma {:induction false} RenameBuilt(t: Names, ids: seq<string>, alias: string)
    requires Built(t) && exists n: nat :: alias == NodeRef(n) || alias == EdgeRef(n)
    ensures Built(Rename(t, ids, alias))
  {
    if ids != [] {
      RenameBuilt(t, ids[..|ids| - 1], alias);
      AddBuilt(Rename(t, ids[..|ids| - 1], alias) - {Lower(ids[|ids| - 1])}, ids[|ids| - 1], alias);
    }
  }

  lemma {:induction false} AfterPayloadsBuilt(payloads: seq<Payload>)
    ensures Built(AfterPayloads(payloads))
  {
    if payloads != [] {
      AfterPayloadsBuilt(payloads[..|payloads| - 1]);
      AddAllBuilt(AfterPayloads(payloads[..|payloads| - 1]), Collect(ToValue(payloads[|payloads| - 1])));
    }
  }

  lemma {:induction false} AfterNodesBuilt(t: Names, nodes: seq<Node>)
    requires Built(t)
    ensures Built(AfterNodes(t, nodes))
  {
    if nodes != [] {
      var front, last := nodes[..|nodes| - 1], nodes[|nodes| - 1];
      AfterNodesBuilt(t, front);
      assert NodeRef(|nodes|) == NodeRef(|nodes|);
      RenameBuilt(AfterNodes(t, front), NodeIds(last), NodeRef(|nodes|));
      AddBuilt(Rename(AfterNodes(t, front), NodeIds(last), NodeRef(|nodes|)), last.run, OUTSIDE);
    }
  }

  lemma {:induction false} AfterEdgesBuilt(t: Names, edges: seq<Edge>)
    requires Built(t)
    ensures Built(AfterEdges(t, edges))
  {
    if edges != [] {
      AfterEdgesBuilt(t, edges[..|edges| - 1]);
      RenameBuilt(AfterEdges(t, edges[..|edges| - 1]), EdgeIds(edges[|edges| - 1]), EdgeRef(|edges|));
    }
  }

  lemma TableIsBuilt(payloads: seq<Payload>, nodes: seq<Node>, edges: seq<Edge>)
    ensures Built(Table(payloads, nodes, edges))
  {
    AfterPayloadsBuilt(payloads);
    AfterNodesBuilt(AfterPayloads(payloads), nodes);
    AfterEdgesBuilt(AfterNodes(AfterPayloads(payloads), nodes), edges);
  }

  /** The word stands at `i`. */
  predicate Spells(x: string, i: nat, word: string) {
    i + |word| <= |x| && forall k :: 0 <= k < |word| ==> x[i + k] == word[k]
  }

  /** The token is a reference, or a word of the phrase for records outside. */
  predicate HostToken(x: string, i: nat, n: nat)
    requires i + n <= |x|
  {
    || (n >= 2 && (x[i] == 'n' || x[i] == 'e') && forall k :: i < k < i + n ==> Digit(x[k]))
    || (n == 1 && x[i] == 'a')
    || (n == 6 && Spells(x, i, "record")) || (n == 7 && Spells(x, i, "outside"))
    || (n == 4 && (Spells(x, i, "this") || Spells(x, i, "view")))
  }

  /** The id begins with a token, and none of its tokens is one of those. */
  ghost predicate Foreign(x: string) {
    x != "" && !Boundary(x[0]) && forall i: nat, n: nat :: TokenAt(x, i, n) ==> !HostToken(x, i, n)
  }

  lemma OutsideTokens(j: nat, n: nat)
    requires TokenAt(OUTSIDE, j, n)
    ensures (j == 0 && n == 1) || (j == 2 && n == 6) || (j == 9 && n == 7) || (j == 17 && n == 4) || (j == 22 && n == 4)
  {
    assert OUTSIDE[1] == OUTSIDE[8] == OUTSIDE[16] == OUTSIDE[21] == ' ';
    assert |OUTSIDE| == 26;
  }

  lemma OutsideWords()
    ensures Spells(OUTSIDE, 0, "a") && Spells(OUTSIDE, 2, "record") && Spells(OUTSIDE, 9, "outside")
    ensures Spells(OUTSIDE, 17, "this") && Spells(OUTSIDE, 22, "view")
  {
  }

  lemma SpelledAlike(id: string, i: nat, alias: string, j: nat, word: string)
    requires SameToken(id, i, alias, j, |word|) && Spells(alias, j, word) && Lower(word) == word
    ensures Spells(id, i, word)
  {
    forall k | 0 <= k < |word| ensures id[i + k] == word[k] {
      assert LowerChar(alias[i + k - i + j]) == id[i + k] && alias[j + k] == word[k] == Lower(word)[k];
    }
  }

  lemma OutsideIsHost(id: string, i: nat, j: nat, n: nat)
    requires SameToken(id, i, OUTSIDE, j, n)
    ensures HostToken(id, i, n)
  {
    OutsideTokens(j, n);
    OutsideWords();
    var word := if j == 0 then "a" else if j == 2 then "record" else if j == 9 then "outside" else if j == 17
      then "this" else "view";
    assert Lower(word) == word;
    SpelledAlike(id, i, OUTSIDE, j, word);
  }

  /** A text of one token has no other. */
  lemma OnlyToken(s: string, j: nat, n: nat)
    requires TokenAt(s, j, n) && forall k :: 0 <= k < |s| ==> !Boundary(s[k])
    ensures j == 0 && n == |s|
  {
  }

  lemma RefIsHost(id: string, i: nat, alias: string, j: nat, n: nat)
    requires SameToken(id, i, alias, j, n) && |alias| >= 2
    requires (alias[0] == 'N' || alias[0] == 'E') && forall k :: 0 < k < |alias| ==> Digit(alias[k])
    ensures HostToken(id, i, n)
  {
    OnlyToken(alias, j, n);
    forall k | i <= k < i + n ensures id[k] == LowerChar(alias[k - i]) { assert LowerChar(alias[k - i + j]) == id[k]; }
  }

  lemma RefsAre(n: nat)
    ensures |NodeRef(n)| >= 2 && NodeRef(n)[0] == 'N' && forall k :: 0 < k < |NodeRef(n)| ==> Digit(NodeRef(n)[k])
    ensures |EdgeRef(n)| >= 2 && EdgeRef(n)[0] == 'E' && forall k :: 0 < k < |EdgeRef(n)| ==> Digit(EdgeRef(n)[k])
  {
    var d := Decimal(n);
    assert forall k :: 0 < k < |NodeRef(n)| ==> NodeRef(n)[k] == d[k - 1];
    assert forall k :: 0 < k < |EdgeRef(n)| ==> EdgeRef(n)[k] == d[k - 1];
  }

  /** What a known id is shown as has no token of a foreign id. */
  lemma ShownApart(t: Names, other: string, id: string, i: nat, j: nat, n: nat)
    requires Built(t) && other in t && Foreign(id)
    ensures t[other] != "" && !Boundary(t[other][0]) && !SameToken(id, i, t[other], j, n)
  {
    if t[other] == OUTSIDE {
      if SameToken(id, i, OUTSIDE, j, n) { OutsideIsHost(id, i, j, n); }
    } else {
      var m: nat :| t[other] == NodeRef(m) || t[other] == EdgeRef(m);
      RefsAre(m);
      if SameToken(id, i, t[other], j, n) { RefIsHost(id, i, t[other], j, n); }
    }
  }

  /** The table of any records is sound when its ids have no token of a reference or of the phrase
      for records outside. */
  lemma TableIsSound(a: Aliases)
    requires a.Valid() && Built(a.names) && forall x :: x in a.names ==> Foreign(x)
    ensures Sound(a)
  {
    forall id, other, i: nat, j: nat, n: nat | id in a.names && other in a.names
      ensures a.names[other] != "" && !Boundary(a.names[other][0]) && !SameToken(id, i, a.names[other], j, n)
    {
      ShownApart(a.names, other, id, i, j, n);
    }
    TokensApartIsSound(a);
  }

  const ARTICLE_ID := "article:run-1/a-1"

  lemma ArticleTokens(i: nat, n: nat)
    requires TokenAt(ARTICLE_ID, i, n)
    ensures (i == 0 && n == 7) || (i == 8 && n == 5) || (i == 14 && n == 3)
  {
    assert ARTICLE_ID[7] == ':' && ARTICLE_ID[13] == '/' && |ARTICLE_ID| == 17;
  }

  lemma ArticleIdIsForeign()
    ensures Foreign(ARTICLE_ID)
  {
    forall i: nat, n: nat | TokenAt(ARTICLE_ID, i, n) ensures !HostToken(ARTICLE_ID, i, n) {
      ArticleTokens(i, n);
      assert ARTICLE_ID[8] == 'r';
      assert !Spells(ARTICLE_ID, 0, "outside") by { assert ARTICLE_ID[0 + 0] != "outside"[0]; }
    }
  }

  lemma {:induction false} BytesLeast(s: string)
    ensures Bytes(s) >= |s|
  {
    if s != "" { BytesLeast(s[1..]); }
  }

  lemma PlainIsScrubbable(x: string)
    requires |x| >= 2 && forall k :: 0 <= k < |x| ==> !Digit(x[0]) && LowerChar(x[k]) == x[k]
    ensures Scrubbable(x) && Lower(x) == x
  {
    BytesLeast(x);
  }

  lemma OneIdIsSound(x: string, n: nat)
    requires Scrubbable(x) && Lower(x) == x && Foreign(x)
    ensures Sound(Aliases(map[x := NodeRef(n)], [x]))
  {
    var a := Aliases(map[x := NodeRef(n)], [x]);
    assert [x][1..] == [];
    assert a.Valid();
    TableIsSound(a);
  }

  /** Ids of several tokens can be in a sound table. */
  lemma ArticleTableIsSound(a: Aliases)
    requires a == Aliases(map[ARTICLE_ID := NodeRef(1)], [ARTICLE_ID])
    ensures Sound(a) && !SingleTokens(a)
  {
    ArticleIdIsForeign();
    PlainIsScrubbable(ARTICLE_ID);
    OneIdIsSound(ARTICLE_ID, 1);
    assert Boundary(ARTICLE_ID[7]) && ARTICLE_ID in a.names;
  }

  method Ordered(names: Names) returns (ids: seq<string>)
    ensures forall id :: id in ids <==> id in names
  {
    ids := [];
    var rest := names.Keys;
    while rest != {}
      invariant rest <= names.Keys
      invariant forall id :: id in ids <==> id in names && id !in rest
    {
      var id :| id in rest;
      ids, rest := ids + [id], rest - {id};
    }
  }

  method RenameEach(names: Names, ids: seq<string>, alias: string) returns (now: Names)
    ensures now == Rename(names, ids, alias)
  {
    now := names;
    for k := 0 to |ids|
      invariant now == Rename(names, ids[..k], alias)
    {
      assert ids[..k + 1][..k] == ids[..k];
      now := Add(now - {Lower(ids[k])}, ids[k], alias);
    }
    assert ids[..|ids|] == ids;
  }

  /** Payload ids first, then nodes and edges, each taking over the ids it has. */
  method BuildAliases(payloads: seq<Payload>, nodes: seq<Node>, edges: seq<Edge>) returns (a: Aliases)
    ensures a.names == Table(payloads, nodes, edges) && a.Valid() && Built(a.names)
  {
    var names: Names := map[];
    for i := 0 to |payloads|
      invariant names == AfterPayloads(payloads[..i])
    {
      assert payloads[..i + 1][..i] == payloads[..i];
      names := AddAll(names, Collect(ToValue(payloads[i])), OUTSIDE);
    }
    assert payloads[..|payloads|] == payloads;
    for i := 0 to |nodes|
      invariant names == AfterNodes(AfterPayloads(payloads), nodes[..i])
    {
      assert nodes[..i + 1][..i] == nodes[..i];
      names := RenameEach(names, NodeIds(nodes[i]), NodeRef(i + 1));
      names := Add(names, nodes[i].run, OUTSIDE);
    }
    assert nodes[..|nodes|] == nodes;
    for i := 0 to |edges|
      invariant names == AfterEdges(AfterNodes(AfterPayloads(payloads), nodes), edges[..i])
    {
      assert edges[..i + 1][..i] == edges[..i];
      names := RenameEach(names, EdgeIds(edges[i]), EdgeRef(i + 1));
    }
    assert edges[..|edges|] == edges;
    TableIsBuilt(payloads, nodes, edges);
    var ids := Ordered(names);
    FinishOrders(names, ids);
    a := Finish(names, ids);
  }

  // ------------------------------------------------------------------ what leaks

  /** An edge whose first receipt is its own id, as a related record's is, puts the id into the
      prompt. */
  lemma ReceiptLeaks(a: Aliases, space: Spacing, e: Edge, record: Option<Json>)
    requires Lower(e.id) in a.names && e.receipts != [] && e.receipts[0] == e.id
    ensures !EdgeSilent(a, ShowEdge(a, space, e, record))
  {
    assert Receipts(e)[0] == e.id;
    assert e.id in Receipts(e);
    assert Whole(e.id, 0, Lower(e.id));
    assert !Clean(a, e.id);
  }

  /** A text that holds no id until it is shortened: the cut makes "run-12" the id "run-1". */
  lemma CutLeaks(space: Spacing) returns (a: Aliases, text: string)
    requires !space('1')
    ensures a.Valid() && Clean(a, text) && !Clean(a, TrimText(space, text))
  {
    var id := "run-1";
    var blanks := seq(595, _ => ' ');
    a, text := Aliases(map[id := "N1"], [id]), blanks + id + "2";
    assert [id][1..] == [];
    forall p: nat ensures !Whole(text, p, id) {
      if p < 595 { assert LowerChar(text[p + 0]) == ' '; }
      assert text[596] == 'u' && text[600] == '2';
      if p == 596 { assert LowerChar(text[p + 0]) == 'u'; }
    }
    forall k | 0 <= k < 5 ensures LowerChar(text[595 + k]) == id[k] { assert text[595 + k] == id[k]; }
    CutStands(a, space, text, id, 595);
    assert id in a.names;
  }
}
