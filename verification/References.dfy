/** The numbered references of a neighborhood brief, and their compact printed form. */
module References {
  import opened Wrappers
  import opened Sorting

  datatype Epistemic = Recorded | StoredInference | Tentative | Coverage

  datatype Target = NodeTarget(id: string) | EdgeTarget(id: string)

  datatype Reference = Reference(n: nat, target: Target)

  datatype Item = Item(text: string, epistemic: Epistemic, nodes: seq<string>, edges: seq<string>, basis: seq<nat>)

  datatype Brief = Brief(
    overview: Option<Item>,
    connections: seq<Item>,
    interpretation: seq<Item>,
    limits: seq<Item>,
    references: seq<Reference>)

  /** The record ids that references may name. */
  datatype Known = Known(nodes: set<string>, edges: set<string>)

  function Overviews(b: Brief): seq<Item> {
    if b.overview.Some? then [b.overview.value] else []
  }

  function Items(b: Brief): seq<Item> {
    Overviews(b) + b.connections + b.interpretation + b.limits
  }

  // --------------------------------------------------------------- numbering

  /** First occurrences, in order. */
  function Distinct<T(==)>(s: seq<T>): seq<T> {
    if s == [] then []
    else
      var before := Distinct(s[..|s| - 1]);
      if s[|s| - 1] in before then before else before + [s[|s| - 1]]
  }

  function Among(ids: seq<string>, known: set<string>): seq<string> {
    if ids == [] then []
    else Among(ids[..|ids| - 1], known) + if ids[|ids| - 1] in known then [ids[|ids| - 1]] else []
  }

  /** The item with the distinct known records it cites. */
  function Cleaned(k: Known, it: Item): Item {
    it.(nodes := Among(Distinct(it.nodes), k.nodes), edges := Among(Distinct(it.edges), k.edges))
  }

  function TargetOf(id: string, edge: bool): Target {
    if edge then EdgeTarget(id) else NodeTarget(id)
  }

  function Named(ids: seq<string>, edges: bool): seq<Target> {
    if ids == [] then [] else Named(ids[..|ids| - 1], edges) + [TargetOf(ids[|ids| - 1], edges)]
  }

  /** What an item cites, nodes before edges. */
  function Targets(it: Item): seq<Target> {
    Named(it.nodes, false) + Named(it.edges, true)
  }

  function Cited(items: seq<Item>): seq<Target> {
    if items == [] then [] else Cited(items[..|items| - 1]) + Targets(items[|items| - 1])
  }

  predicate IsKnown(k: Known, t: Target) {
    if t.NodeTarget? then t.id in k.nodes else t.id in k.edges
  }

  ghost predicate Numbered(references: seq<Reference>, used: seq<Target>) {
    && |references| == |used|
    && forall i :: 0 <= i < |used| ==> references[i] == Reference(i + 1, used[i])
  }

  /** Each number names the target in its place. */
  ghost predicate Names(basis: seq<nat>, targets: seq<Target>, references: seq<Reference>) {
    && |basis| == |targets|
    && forall i :: 0 <= i < |basis| ==> 1 <= basis[i] <= |references| && references[basis[i] - 1].target == targets[i]
  }

  lemma {:induction false} DistinctIs<T>(s: seq<T>)
    ensures forall x :: x in Distinct(s) <==> x in s
    ensures forall i, j :: 0 <= i < j < |Distinct(s)| ==> Distinct(s)[i] != Distinct(s)[j]
  {
    if s != [] {
      DistinctIs(s[..|s| - 1]);
      assert s == s[..|s| - 1] + [s[|s| - 1]];
    }
  }

  lemma {:induction false} AmongIs(ids: seq<string>, known: set<string>)
    ensures forall id :: id in Among(ids, known) <==> id in ids && id in known
  {
    if ids != [] {
      AmongIs(ids[..|ids| - 1], known);
      assert ids == ids[..|ids| - 1] + [ids[|ids| - 1]];
    }
  }

  ghost predicate Lists(references: seq<Reference>, t: Target) {
    exists i :: 0 <= i < |references| && references[i].target == t
  }

  ghost predicate AllKnown(k: Known, references: seq<Reference>) {
    forall r :: r in references ==> IsKnown(k, r.target)
  }

  /** The references after one more citation. */
  ghost function Grow(references: seq<Reference>, t: Target): seq<Reference> {
    if Lists(references, t) then references else references + [Reference(|references| + 1, t)]
  }

  ghost function GrowAll(references: seq<Reference>, targets: seq<Target>): seq<Reference> {
    if targets == [] then references else Grow(GrowAll(references, targets[..|targets| - 1]), targets[|targets| - 1])
  }

  lemma GrowOne(references: seq<Reference>, targets: seq<Target>, t: Target)
    ensures GrowAll(references, targets + [t]) == Grow(GrowAll(references, targets), t)
  {
    assert (targets + [t])[..|targets|] == targets;
  }

  lemma {:induction false} GrowTwice(references: seq<Reference>, a: seq<Target>, b: seq<Target>)
    ensures GrowAll(GrowAll(references, a), b) == GrowAll(references, a + b)
  {
    if b == [] {
      assert a + b == a;
    } else {
      GrowTwice(references, a, b[..|b| - 1]);
      assert (a + b)[..|a + b| - 1] == a + b[..|b| - 1];
    }
  }

  /** Counting citations one by one lists the distinct ones, numbered from 1. */
  lemma {:induction false} GrowIsNumbered(targets: seq<Target>)
    ensures Numbered(GrowAll([], targets), Distinct(targets))
  {
    if targets != [] {
      var before, t := targets[..|targets| - 1], targets[|targets| - 1];
      var references, used := GrowAll([], before), Distinct(before);
      GrowIsNumbered(before);
      assert Lists(references, t) <==> t in used by {
        if t in used { var i :| 0 <= i < |used| && used[i] == t; assert references[i].target == t; }
      }
    }
  }

  lemma NamesGrow(basis: seq<nat>, targets: seq<Target>, references: seq<Reference>, later: seq<Reference>)
    requires Names(basis, targets, references) && references <= later
    ensures Names(basis, targets, later)
  {
  }

  lemma NamesJoin(a: seq<nat>, s: seq<Target>, b: seq<nat>, t: seq<Target>, references: seq<Reference>)
    requires Names(a, s, references) && Names(b, t, references)
    ensures Names(a + b, s + t, references)
  {
  }

  lemma NamesOne(a: seq<nat>, s: seq<Target>, n: nat, t: Target, references: seq<Reference>)
    requires Names(a, s, references) && 1 <= n <= |references| && references[n - 1].target == t
    ensures Names(a + [n], s + [t], references)
  {
  }

  lemma NamedAppend(ids: seq<string>, id: string, edges: bool)
    ensures Named(ids + [id], edges) == Named(ids, edges) + [TargetOf(id, edges)]
  {
    assert (ids + [id])[..|ids|] == ids;
  }

  /** `ids` have been filtered to `kept` and numbered, starting from the list `start`. */
  ghost predicate Taken(k: Known, ids: seq<string>, edges: bool, start: seq<Reference>, kept: seq<string>,
      basis: seq<nat>, references: seq<Reference>) {
    && start <= references
    && kept == Among(ids, if edges then k.edges else k.nodes)
    && references == GrowAll(start, Named(kept, edges))
    && Names(basis, Named(kept, edges), references)
  }

  lemma TakenMore(k: Known, ids: seq<string>, id: string, edges: bool, start: seq<Reference>,
      kept: seq<string>, basis: seq<nat>, before: seq<Reference>, n: nat, t: Target)
    requires Taken(k, ids, edges, start, kept, basis, before)
    requires t == TargetOf(id, edges) && IsKnown(k, t)
    requires 1 <= n <= |Grow(before, t)| && Grow(before, t)[n - 1].target == t
    ensures Taken(k, ids + [id], edges, start, kept + [id], basis + [n], Grow(before, t))
  {
    AmongAppend(ids, id, if edges then k.edges else k.nodes);
    NamedAppend(kept, id, edges);
    GrowOne(start, Named(kept, edges), t);
    NamesGrow(basis, Named(kept, edges), before, Grow(before, t));
    NamesOne(basis, Named(kept, edges), n, t, Grow(before, t));
  }

  lemma TakenSame(k: Known, ids: seq<string>, id: string, edges: bool, start: seq<Reference>,
      kept: seq<string>, basis: seq<nat>, references: seq<Reference>)
    requires Taken(k, ids, edges, start, kept, basis, references) && !IsKnown(k, TargetOf(id, edges))
    ensures Taken(k, ids + [id], edges, start, kept, basis, references)
  {
    AmongAppend(ids, id, if edges then k.edges else k.nodes);
  }

  lemma AmongAppend(ids: seq<string>, id: string, known: set<string>)
    ensures Among(ids + [id], known) == Among(ids, known) + if id in known then [id] else []
  {
    assert (ids + [id])[..|ids|] == ids;
  }

  /** The same items with distinct known records, each number naming its record. */
  ghost predicate Filled(k: Known, items: seq<Item>, out: seq<Item>, references: seq<Reference>) {
    && |out| == |items|
    && forall i :: 0 <= i < |out| ==>
       out[i] == Cleaned(k, items[i]).(basis := out[i].basis) && Names(out[i].basis, Targets(out[i]), references)
  }

  lemma FilledMore(k: Known, items: seq<Item>, out: seq<Item>, references: seq<Reference>, item: Item,
      it: Item, later: seq<Reference>)
    requires Filled(k, items, out, references) && references <= later
    requires it == Cleaned(k, item).(basis := it.basis) && Names(it.basis, Targets(it), later)
    ensures Filled(k, items + [item], out + [it], later)
  {
    forall i | 0 <= i < |out| ensures Names(out[i].basis, Targets(out[i]), later) {
      NamesGrow(out[i].basis, Targets(out[i]), references, later);
    }
  }

  lemma FilledGrows(k: Known, items: seq<Item>, out: seq<Item>, references: seq<Reference>, later: seq<Reference>)
    requires Filled(k, items, out, references) && references <= later
    ensures Filled(k, items, out, later)
  {
    forall i | 0 <= i < |out| ensures Names(out[i].basis, Targets(out[i]), later) {
      NamesGrow(out[i].basis, Targets(out[i]), references, later);
    }
  }

  lemma NextPrefix<T>(s: seq<T>, i: nat)
    requires i < |s|
    ensures s[..i + 1] == s[..i] + [s[i]]
  {
  }

  lemma CitedNext(items: seq<Item>, it: Item)
    ensures Cited(items + [it]) == Cited(items) + Targets(it)
  {
    assert (items + [it])[..|items|] == items;
  }

  /** The running numbering. */
  class Numbering {
    var references: seq<Reference>
    var index: map<Target, nat>

    /** The index holds exactly the listed records, each under its place in the list. */
    ghost predicate Valid()
      reads this
    {
      && (forall t :: t in index ==> 1 <= index[t] <= |references| && references[index[t] - 1].target == t)
      && (forall i :: 0 <= i < |references| ==> references[i].target in index)
    }

    constructor ()
      ensures Valid() && references == []
    {
      references, index := [], map[];
    }

    /** The number of a target, given out at its first use; nothing for an unknown record. */
    method Number(k: Known, t: Target) returns (n: Option<nat>)
      requires Valid() && AllKnown(k, references)
      modifies this
      ensures Valid() && AllKnown(k, references) && old(references) <= references
      ensures n.Some? <==> IsKnown(k, t)
      ensures references == if n.Some? then Grow(old(references), t) else old(references)
      ensures n.Some? ==> 1 <= n.value <= |references| && references[n.value - 1].target == t
    {
      if t in index { return Some(index[t]); }
      if !IsKnown(k, t) { return None; }
      var next := |references| + 1;
      references := references + [Reference(next, t)];
      index := index[t := next];
      n := Some(next);
    }

    /** Keeps one id of a list, if it is known, and numbers it. */
    method TakeOne(k: Known, ghost ids: seq<string>, id: string, edges: bool, ghost start: seq<Reference>,
        kept: seq<string>, basis: seq<nat>)
      returns (more: seq<string>, longer: seq<nat>)
      requires Valid() && AllKnown(k, references) && Taken(k, ids, edges, start, kept, basis, references)
      modifies this
      ensures Valid() && AllKnown(k, references) && Taken(k, ids + [id], edges, start, more, longer, references)
    {
      ghost var before := references;
      var t := TargetOf(id, edges);
      var n := Number(k, t);
      ghost var after := references;
      assert after == if n.Some? then Grow(before, t) else before;
      if n.None? {
        TakenSame(k, ids, id, edges, start, kept, basis, before);
        return kept, basis;
      }
      TakenMore(k, ids, id, edges, start, kept, basis, before, n.value, t);
      return kept + [id], basis + [n.value];
    }

    /** Keeps the known ids of a list and numbers them. */
    method Take(k: Known, ids: seq<string>, edges: bool) returns (kept: seq<string>, basis: seq<nat>)
      requires Valid() && AllKnown(k, references)
      modifies this
      ensures Valid() && AllKnown(k, references) && Taken(k, ids, edges, old(references), kept, basis, references)
    {
      kept, basis := [], [];
      for i := 0 to |ids|
        invariant Valid() && AllKnown(k, references)
                  && Taken(k, ids[..i], edges, old(references), kept, basis, references)
      {
        NextPrefix(ids, i);
        kept, basis := TakeOne(k, ids[..i], ids[i], edges, old(references), kept, basis);
      }
      assert ids[..|ids|] == ids;
    }

    /** Rewrites one item: distinct known ids, and a basis number for each. */
    method Fill(k: Known, it: Item) returns (out: Item)
      requires Valid() && AllKnown(k, references)
      modifies this
      ensures Valid() && AllKnown(k, references)
      ensures old(references) <= references
      ensures out == Cleaned(k, it).(basis := out.basis)
      ensures references == GrowAll(old(references), Targets(out))
      ensures Names(out.basis, Targets(out), references)
    {
      var nodes, first := Take(k, Distinct(it.nodes), false);
      ghost var between := references;
      var edges, second := Take(k, Distinct(it.edges), true);
      out := it.(nodes := nodes, edges := edges, basis := first + second);
      GrowTwice(old(references), Named(nodes, false), Named(edges, true));
      NamesGrow(first, Named(nodes, false), between, references);
      NamesJoin(first, Named(nodes, false), second, Named(edges, true), references);
    }

    method FillAll(k: Known, items: seq<Item>) returns (out: seq<Item>)
      requires Valid() && AllKnown(k, references)
      modifies this
      ensures Valid() && AllKnown(k, references)
      ensures old(references) <= references
      ensures references == GrowAll(old(references), Cited(out))
      ensures Filled(k, items, out, references)
    {
      out := [];
      for i := 0 to |items|
        invariant Valid() && AllKnown(k, references)
        invariant old(references) <= references
        invariant references == GrowAll(old(references), Cited(out))
        invariant Filled(k, items[..i], out, references)
      {
        ghost var before := references;
        var it := Fill(k, items[i]);
        FilledMore(k, items[..i], out, before, items[i], it, references);
        NextPrefix(items, i);
        GrowTwice(old(references), Cited(out), Targets(it));
        CitedNext(out, it);
        out := out + [it];
      }
      assert items[..|items|] == items;
    }
  }

  // -------------------------------------------------------------- whole brief

  /** What a numbered brief is, said without the numbering loop: the same items with distinct
      known records, references counted from 1 over the distinct citations in reading order,
      and every basis number naming the record in its place. */
  ghost predicate IsNumbering(k: Known, b: Brief, out: Brief) {
    && Filled(k, Overviews(b), Overviews(out), out.references)
    && Filled(k, b.connections, out.connections, out.references)
    && Filled(k, b.interpretation, out.interpretation, out.references)
    && Filled(k, b.limits, out.limits, out.references)
    && Numbered(out.references, Distinct(Cited(Items(out))))
  }

  lemma {:induction false} CitedSplit(a: seq<Item>, b: seq<Item>)
    ensures Cited(a + b) == Cited(a) + Cited(b)
  {
    if b == [] {
      assert a + b == a;
    } else {
      assert (a + b)[..|a + b| - 1] == a + b[..|b| - 1];
      CitedSplit(a, b[..|b| - 1]);
    }
  }

  /** Numbering four blocks one after the other numbers their concatenation. */
  lemma GrowBlocks(a: seq<Item>, b: seq<Item>, c: seq<Item>, d: seq<Item>)
    ensures GrowAll(GrowAll(GrowAll(GrowAll([], Cited(a)), Cited(b)), Cited(c)), Cited(d)) ==
            GrowAll([], Cited(a + b + c + d))
  {
    CitedSplit(a, b);
    CitedSplit(a + b, c);
    CitedSplit(a + b + c, d);
    GrowTwice([], Cited(a), Cited(b));
    GrowTwice([], Cited(a + b), Cited(c));
    GrowTwice([], Cited(a + b + c), Cited(d));
  }

  /** Numbers the four blocks one after the other. */
  method NumberBlocks(k: Known, a: seq<Item>, b: seq<Item>, c: seq<Item>, d: seq<Item>)
    returns (a': seq<Item>, b': seq<Item>, c': seq<Item>, d': seq<Item>, references: seq<Reference>)
    ensures Filled(k, a, a', references) && Filled(k, b, b', references) && Filled(k, c, c', references)
            && Filled(k, d, d', references)
    ensures references == GrowAll(GrowAll(GrowAll(GrowAll([], Cited(a')), Cited(b')), Cited(c')), Cited(d'))
  {
    var numbering := new Numbering();
    a' := numbering.FillAll(k, a);
    ghost var first := numbering.references;
    b' := numbering.FillAll(k, b);
    ghost var second := numbering.references;
    c' := numbering.FillAll(k, c);
    ghost var third := numbering.references;
    d' := numbering.FillAll(k, d);
    references := numbering.references;
    FilledGrows(k, a, a', first, references);
    FilledGrows(k, b, b', second, references);
    FilledGrows(k, c, c', third, references);
  }

  method NumberReferences(k: Known, b: Brief) returns (out: Brief)
    ensures IsNumbering(k, b, out)
  {
    var overview, connections, interpretation, limits, references :=
      NumberBlocks(k, Overviews(b), b.connections, b.interpretation, b.limits);
    out := Brief(if b.overview.Some? then Some(overview[0]) else None, connections, interpretation, limits, references);
    assert Overviews(out) == overview;
    GrowBlocks(overview, connections, interpretation, limits);
    GrowIsNumbered(Cited(Items(out)));
  }

  lemma FilledItem(k: Known, items: seq<Item>, out: seq<Item>, references: seq<Reference>, it: Item)
    requires Filled(k, items, out, references) && it in out
    ensures Names(it.basis, Targets(it), references)
    ensures exists item :: it == Cleaned(k, item).(basis := it.basis)
  {
    var i :| 0 <= i < |out| && out[i] == it;
    assert it == Cleaned(k, items[i]).(basis := it.basis);
  }

  // ------------------------------------------------------------- verification

  datatype Problem = UnknownNode(id: string) | UnknownEdge(id: string) | NoSuchBasis(n: nat)

  function ItemProblems(k: Known, count: nat, it: Item): seq<Problem> {
    Strays(it.nodes, k.nodes, false) + Strays(it.edges, k.edges, true) + Dangling(it.basis, count)
  }

  function Strays(ids: seq<string>, known: set<string>, edges: bool): seq<Problem> {
    if ids == [] then []
    else
      (if ids[0] in known then [] else [if edges then UnknownEdge(ids[0]) else UnknownNode(ids[0])])
      + Strays(ids[1..], known, edges)
  }

  function Dangling(basis: seq<nat>, count: nat): seq<Problem> {
    if basis == [] then []
    else (if basis[0] == 0 || basis[0] > count then [NoSuchBasis(basis[0])] else []) + Dangling(basis[1..], count)
  }

  function Verify(k: Known, count: nat, items: seq<Item>): seq<Problem> {
    if items == [] then [] else ItemProblems(k, count, items[0]) + Verify(k, count, items[1..])
  }

  lemma {:induction false} StraysAre(ids: seq<string>, known: set<string>, edges: bool, x: Problem)
    ensures x in Strays(ids, known, edges) <==>
      exists id :: id in ids && id !in known && x == if edges then UnknownEdge(id) else UnknownNode(id)
  {
    if ids != [] {
      StraysAre(ids[1..], known, edges, x);
      assert ids == [ids[0]] + ids[1..];
    }
  }

  lemma {:induction false} DanglingAre(basis: seq<nat>, count: nat, x: Problem)
    ensures x in Dangling(basis, count) <==> exists n :: n in basis && (n == 0 || n > count) && x == NoSuchBasis(n)
  {
    if basis != [] {
      DanglingAre(basis[1..], count, x);
      assert basis == [basis[0]] + basis[1..];
    }
  }

  /** Verification reports exactly the unknown nodes, the unknown edges and the numbers without a
      reference that some item has. */
  lemma {:induction false} VerifyReports(k: Known, count: nat, items: seq<Item>, x: Problem)
    ensures x in Verify(k, count, items) <==>
      exists it :: it in items && match x
        case UnknownNode(id) => id in it.nodes && id !in k.nodes
        case UnknownEdge(id) => id in it.edges && id !in k.edges
        case NoSuchBasis(n) => n in it.basis && (n == 0 || n > count)
  {
    if items != [] {
      VerifyReports(k, count, items[1..], x);
      assert items == [items[0]] + items[1..];
      StraysAre(items[0].nodes, k.nodes, false, x);
      StraysAre(items[0].edges, k.edges, true, x);
      DanglingAre(items[0].basis, count, x);
    }
  }

  lemma {:induction false} StraysNone(ids: seq<string>, known: set<string>, edges: bool)
    ensures Strays(ids, known, edges) == [] <==> forall id :: id in ids ==> id in known
  {
    if ids != [] {
      StraysNone(ids[1..], known, edges);
      assert ids == [ids[0]] + ids[1..];
    }
  }

  lemma {:induction false} DanglingNone(basis: seq<nat>, count: nat)
    ensures Dangling(basis, count) == [] <==> forall n :: n in basis ==> 1 <= n <= count
  {
    if basis != [] {
      DanglingNone(basis[1..], count);
      assert basis == [basis[0]] + basis[1..];
      assert basis[0] in basis;
      forall n | n in basis[1..] ensures n in basis {}
    }
  }

  /** Every record the item names is known, and every number is that of a reference. */
  ghost predicate Resolves(k: Known, count: nat, it: Item) {
    && (forall id :: id in it.nodes ==> id in k.nodes)
    && (forall id :: id in it.edges ==> id in k.edges)
    && forall n :: n in it.basis ==> 1 <= n <= count
  }

  lemma ItemNone(k: Known, count: nat, it: Item)
    ensures ItemProblems(k, count, it) == [] <==> Resolves(k, count, it)
  {
    StraysNone(it.nodes, k.nodes, false);
    StraysNone(it.edges, k.edges, true);
    DanglingNone(it.basis, count);
  }

  /** Verification reports nothing exactly when everything resolves. */
  lemma {:induction false} VerifyNone(k: Known, count: nat, items: seq<Item>)
    ensures Verify(k, count, items) == [] <==> forall i :: 0 <= i < |items| ==> Resolves(k, count, items[i])
  {
    if items != [] {
      ItemNone(k, count, items[0]);
      VerifyNone(k, count, items[1..]);
      assert forall i :: 0 < i < |items| ==> items[i] == items[1..][i - 1];
      assert forall i :: 0 <= i < |items| - 1 ==> items[1..][i] == items[i + 1];
    }
  }

  lemma NamedLength(ids: seq<string>, edges: bool)
    ensures |Named(ids, edges)| == |ids|
  {
  }

  lemma NumberedItem(k: Known, b: Brief, out: Brief, it: Item)
    requires IsNumbering(k, b, out) && it in Items(out)
    ensures Names(it.basis, Targets(it), out.references)
    ensures exists item :: it == Cleaned(k, item).(basis := it.basis)
  {
    if it in Overviews(out) {
      FilledItem(k, Overviews(b), Overviews(out), out.references, it);
    } else if it in out.connections {
      FilledItem(k, b.connections, out.connections, out.references, it);
    } else if it in out.interpretation {
      FilledItem(k, b.interpretation, out.interpretation, out.references, it);
    } else {
      FilledItem(k, b.limits, out.limits, out.references, it);
    }
  }

  /** A numbered brief has nothing to report, against the records it was numbered for. */
  lemma NumberedVerifies(k: Known, b: Brief, out: Brief)
    requires IsNumbering(k, b, out)
    ensures Verify(k, |out.references|, Items(out)) == []
  {
    forall i | 0 <= i < |Items(out)| ensures Resolves(k, |out.references|, Items(out)[i]) {
      var it := Items(out)[i];
      NumberedItem(k, b, out, it);
      var item :| it == Cleaned(k, item).(basis := it.basis);
      AmongIs(Distinct(item.nodes), k.nodes);
      AmongIs(Distinct(item.edges), k.edges);
    }
    VerifyNone(k, |out.references|, Items(out));
  }

  /** References are dense from 1, no record has two, and an item has as many numbers as
      records. */
  lemma NumberingIsDense(k: Known, b: Brief, out: Brief)
    requires IsNumbering(k, b, out)
    ensures forall i :: 0 <= i < |out.references| ==> out.references[i].n == i + 1
    ensures forall i, j :: 0 <= i < j < |out.references| ==> out.references[i].target != out.references[j].target
    ensures forall it :: it in Items(out) ==> |it.basis| == |it.nodes| + |it.edges|
  {
    DistinctIs(Cited(Items(out)));
    forall it | it in Items(out) ensures |it.basis| == |it.nodes| + |it.edges| {
      NumberedItem(k, b, out, it);
      NamedLength(it.nodes, false);
      NamedLength(it.edges, true);
    }
  }

  // ------------------------------------------------------------- printed form

  /** One number, or a range of at least three. */
  datatype Part = One(n: nat) | Range(low: nat, high: nat)

  function Upto(low: nat, high: nat): seq<nat>
    decreases high
  {
    if low > high then [] else if low == high then [low] else Upto(low, high - 1) + [high]
  }

  function Numbers(p: Part): seq<nat> {
    if p.One? then [p.n] else Upto(p.low, p.high)
  }

  function Expand(parts: seq<Part>): seq<nat> {
    if parts == [] then [] else Expand(parts[..|parts| - 1]) + Numbers(parts[|parts| - 1])
  }

  predicate Leq(a: nat, b: nat) { a <= b }

  ghost predicate Ascending(s: seq<nat>) {
    forall i, j :: 0 <= i < j < |s| ==> s[i] < s[j]
  }

  function DropRepeats(s: seq<nat>): seq<nat> {
    if |s| < 2 then s
    else if s[|s| - 2] == s[|s| - 1] then DropRepeats(s[..|s| - 1])
    else DropRepeats(s[..|s| - 1]) + [s[|s| - 1]]
  }

  lemma {:induction false} DropRepeatsIs(s: seq<nat>)
    requires Sorted(Leq, s)
    ensures Ascending(DropRepeats(s))
    ensures forall x :: x in DropRepeats(s) <==> x in s
  {
    if |s| >= 2 {
      var rest, last := s[..|s| - 1], s[|s| - 1];
      DropRepeatsIs(rest);
      assert s == rest + [last] && rest[|s| - 2] in rest;
      forall x | x in rest ensures x <= s[|s| - 2] <= last {
        var i :| 0 <= i < |rest| && rest[i] == x;
        assert Leq(s[|s| - 2], last);
        if i < |s| - 2 { assert Leq(s[i], s[|s| - 2]); }
      }
      forall i | 0 <= i < |DropRepeats(rest)| ensures DropRepeats(rest)[i] <= s[|s| - 2] {
        assert DropRepeats(rest)[i] in rest;
      }
    }
  }

  lemma ExpandOne(parts: seq<Part>, p: Part)
    ensures Expand(parts + [p]) == Expand(parts) + Numbers(p)
  {
    assert (parts + [p])[..|parts|] == parts;
  }

  /** A range spans at least three numbers and could not be longer. */
  predicate Widest(p: Part, ns: seq<nat>) {
    p.Range? ==> p.low + 2 <= p.high && p.high + 1 !in ns && (p.low > 0 ==> p.low - 1 !in ns)
  }

  /** `ns[i..=j]` are consecutive, and neither neighbour continues them. */
  ghost predicate Consecutive(ns: seq<nat>, i: nat, j: nat) {
    && i <= j < |ns|
    && (forall k :: i <= k <= j ==> ns[k] == ns[i] + (k - i))
  }

  lemma WidestRange(ns: seq<nat>, i: nat, j: nat)
    requires Ascending(ns) && Consecutive(ns, i, j) && i + 2 <= j
    requires i > 0 ==> ns[i] != ns[i - 1] + 1
    requires j + 1 < |ns| ==> ns[j + 1] != ns[j] + 1
    ensures Widest(Range(ns[i], ns[j]), ns)
  {
    assert ns[j] == ns[i] + (j - i);
    forall k | 0 <= k < |ns| ensures ns[k] != ns[j] + 1 && ns[k] + 1 != ns[i] {
      if k > j + 1 { assert ns[j] < ns[j + 1] < ns[k]; }
      if k + 1 < i { assert ns[k] < ns[i - 1] < ns[i]; }
    }
  }

  lemma {:induction false} UptoIs(ns: seq<nat>, i: nat, j: nat)
    requires Consecutive(ns, i, j)
    ensures ns[..i] + Upto(ns[i], ns[j]) == ns[..j + 1]
  {
    assert ns[j] == ns[i] + (j - i);
    if i < j {
      assert ns[j - 1] == ns[i] + (j - 1 - i);
      UptoIs(ns, i, j - 1);
      NextPrefix(ns, j);
    }
  }

  /** Adds the parts for one run of consecutive numbers. */
  method Print(ns: seq<nat>, i: nat, j: nat, before: seq<Part>) returns (parts: seq<Part>)
    requires Ascending(ns) && Consecutive(ns, i, j)
    requires i > 0 ==> ns[i] != ns[i - 1] + 1
    requires j + 1 < |ns| ==> ns[j + 1] != ns[j] + 1
    requires Expand(before) == ns[..i] && forall p :: p in before ==> Widest(p, ns)
    ensures Expand(parts) == ns[..j + 1] && forall p :: p in parts ==> Widest(p, ns)
  {
    if j - i >= 2 {
      WidestRange(ns, i, j);
      UptoIs(ns, i, j);
      ExpandOne(before, Range(ns[i], ns[j]));
      parts := before + [Range(ns[i], ns[j])];
    } else {
      parts := before;
      for k := i to j + 1
        invariant Expand(parts) == ns[..k] && forall p :: p in parts ==> Widest(p, ns)
      {
        ExpandOne(parts, One(ns[k]));
        NextPrefix(ns, k);
        parts := parts + [One(ns[k])];
      }
    }
  }

  method RunEnd(ns: seq<nat>, i: nat) returns (j: nat)
    requires i < |ns|
    ensures Consecutive(ns, i, j) && (j + 1 < |ns| ==> ns[j + 1] != ns[j] + 1)
  {
    j := i;
    while j + 1 < |ns| && ns[j + 1] == ns[j] + 1
      invariant Consecutive(ns, i, j)
    {
      j := j + 1;
    }
  }

  method PrintAll(ns: seq<nat>) returns (parts: seq<Part>)
    requires Ascending(ns)
    ensures Expand(parts) == ns
    ensures forall p :: p in parts ==> Widest(p, ns)
  {
    parts := [];
    var i := 0;
    while i < |ns|
      invariant i <= |ns|
      invariant Expand(parts) == ns[..i]
      invariant 0 < i < |ns| ==> ns[i] != ns[i - 1] + 1
      invariant forall p :: p in parts ==> Widest(p, ns)
    {
      var j := RunEnd(ns, i);
      parts := Print(ns, i, j, parts);
      i := j + 1;
    }
  }

  /** The printed parts of a basis: exactly its numbers, once each and in order, with every
      stretch of three or more joined. */
  method Compact(basis: seq<nat>) returns (parts: seq<Part>)
    ensures Ascending(Expand(parts))
    ensures forall n :: n in Expand(parts) <==> n in basis
    ensures forall p :: p in parts ==> Widest(p, basis)
  {
    var sorted := Sort(Leq, basis);
    SortSorts(Leq, basis);
    var ns := DropRepeats(sorted);
    DropRepeatsIs(sorted);
    forall n ensures n in ns <==> n in basis { SortKeeps(Leq, basis, n); }
    parts := PrintAll(ns);
  }
}
