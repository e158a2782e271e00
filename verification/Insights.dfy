/** Settling extracted claims: alias merging, deduplication, capping and linking. */
module Insights {
  import opened Wrappers
  import opened Sorting

  datatype Kind = Fact | Inference | Assertion

  datatype Claim = Claim(
    qualified: Option<string>, kind: Kind, article: string, source: string, country: string,
    entity: string, relation: string, thing: string, topic: string, namespace: string,
    text: string, published: string, confidence: real, context: bool)

  /** What a claim is identified by, before it is printed. */
  datatype Key =
    | Attributed(article: string, space: string, entity: string, relation: string, thing: string, text: string,
      source: string, published: string)
    | Triple(space: string, entity: string, relation: string, thing: string)

  /** How keys are printed: lower case, white space, and the printed form. */
  datatype Printing = Printing(fold: string -> string, squeeze: string -> string, show: Key -> string)

  ghost predicate Injective(p: Printing) {
    forall x, y {:trigger p.show(x), p.show(y)} :: p.show(x) == p.show(y) ==> x == y
  }

  function KeyOf(p: Printing, c: Claim): Key {
    if c.kind.Assertion? then
      Attributed(c.article, c.namespace, p.fold(c.entity), p.fold(c.relation), p.fold(c.thing), p.squeeze(c.text),
        c.source, c.published)
    else Triple(c.namespace, c.entity, c.relation, c.thing)
  }

  function Fingerprint(p: Printing, c: Claim): string {
    if c.qualified.Some? then c.qualified.value else p.show(KeyOf(p, c))
  }

  /** Attributed assertions are told apart by article and wording, all other claims by what they
      say, and the two kinds never agree. */
  lemma SameFingerprintExactlyWhen(p: Printing, c: Claim, d: Claim)
    requires Injective(p) && c.qualified.None? && d.qualified.None?
    ensures Fingerprint(p, c) == Fingerprint(p, d) <==>
      (c.kind == Assertion <==> d.kind == Assertion) && c.namespace == d.namespace &&
      if c.kind == Assertion then
        && c.article == d.article && c.source == d.source && c.published == d.published
        && p.fold(c.entity) == p.fold(d.entity) && p.fold(c.relation) == p.fold(d.relation)
        && p.fold(c.thing) == p.fold(d.thing) && p.squeeze(c.text) == p.squeeze(d.text)
      else c.entity == d.entity && c.relation == d.relation && c.thing == d.thing
  {
    assert p.show(KeyOf(p, c)) == p.show(KeyOf(p, d)) <==> KeyOf(p, c) == KeyOf(p, d);
  }

  /** A qualified claim keeps the fingerprint it brings. */
  lemma QualifiedKeepsFingerprint(p: Printing, c: Claim)
    requires c.qualified.Some?
    ensures Fingerprint(p, c) == c.qualified.value
  {
  }

  // ------------------------------------------------------------------ aliases

  /** What the texts say about entity names. */
  datatype Texts = Texts(tokens: string -> seq<string>, country: string -> bool, appears: string -> bool)

  predicate Covers(t: Texts, longer: string, entity: string) {
    forall i :: 0 <= i < |t.tokens(entity)| ==> t.tokens(entity)[i] in t.tokens(longer)
  }

  /** `other` may stand for `entity`: it appears in the articles and has all its words. */
  predicate Admissible(t: Texts, entity: string, other: string) {
    other != entity && !t.country(other) && Covers(t, other, entity) && t.appears(other)
  }

  predicate Fixed(t: Texts, entity: string) { t.country(entity) || t.tokens(entity) == [] }

  /** `best` is what the first `n` entities make of `entity`: itself unless an admissible one
      has more words, and then the first of those with the most. */
  ghost predicate BestOf(t: Texts, entity: string, entities: seq<string>, n: nat, best: string)
    requires n <= |entities|
  {
    && (best == entity || exists i :: 0 <= i < n && IsFirstBest(t, entity, entities, i, best))
    && |t.tokens(entity)| <= |t.tokens(best)|
    && (forall i :: 0 <= i < n && Admissible(t, entity, entities[i]) ==> |t.tokens(entities[i])| <= |t.tokens(best)|)
  }

  ghost predicate IsFirstBest(t: Texts, entity: string, entities: seq<string>, i: nat, best: string)
    requires i < |entities|
  {
    && entities[i] == best && Admissible(t, entity, best) && |t.tokens(best)| > |t.tokens(entity)|
    && forall j :: 0 <= j < i && Admissible(t, entity, entities[j]) ==> |t.tokens(entities[j])| < |t.tokens(best)|
  }

  method LongerAlias(t: Texts, entity: string, entities: seq<string>) returns (best: string)
    ensures Fixed(t, entity) ==> best == entity
    ensures !Fixed(t, entity) ==> BestOf(t, entity, entities, |entities|, best)
  {
    if t.country(entity) || t.tokens(entity) == [] { return entity; }
    best := entity;
    for i := 0 to |entities|
      invariant BestOf(t, entity, entities, i, best)
    {
      var other := entities[i];
      if other == entity || t.country(other) { continue; }
      if |t.tokens(other)| <= |t.tokens(best)| { continue; }
      if !Covers(t, other, entity) || !t.appears(other) { continue; }
      best := other;
      assert IsFirstBest(t, entity, entities, i, best);
    }
  }

  ghost predicate Aliased(t: Texts, entity: string, entities: seq<string>, best: string) {
    if Fixed(t, entity) then best == entity else BestOf(t, entity, entities, |entities|, best)
  }

  /** An alias is an entity that appears in the articles, is no country and has all the words and
      more, and no such entity has more of them; countries and names without words stay. */
  lemma AliasHasMostWords(t: Texts, entity: string, entities: seq<string>, best: string)
    requires Aliased(t, entity, entities, best)
    ensures t.country(entity) || t.tokens(entity) == [] ==> best == entity
    ensures best != entity ==>
      && best in entities && !t.country(best) && t.appears(best) && |t.tokens(best)| > |t.tokens(entity)|
      && forall word :: word in t.tokens(entity) ==> word in t.tokens(best)
    ensures !t.country(entity) && t.tokens(entity) != [] ==>
      forall other ::
        other in entities && !t.country(other) && t.appears(other) &&
        (forall word :: word in t.tokens(entity) ==> word in t.tokens(other)) ==>
        |t.tokens(other)| <= |t.tokens(best)|
  {
    if !t.country(entity) && t.tokens(entity) != [] {
      forall other | other in entities && !t.country(other) && t.appears(other)
        && (forall word :: word in t.tokens(entity) ==> word in t.tokens(other))
        ensures |t.tokens(other)| <= |t.tokens(best)|
      {
        var i :| 0 <= i < |entities| && entities[i] == other;
        assert other != entity ==> Admissible(t, entity, entities[i]);
      }
    }
  }

  /** Every entity of `after` is the alias of the one before, all else unchanged. */
  ghost predicate Merged(t: Texts, before: seq<string>, after: seq<string>) {
    |after| == |before| && forall i :: 0 <= i < |before| ==> Aliased(t, before[i], before, after[i])
  }

  function Entities(claims: seq<Claim>): (r: seq<string>)
    ensures |r| == |claims| && forall i :: 0 <= i < |claims| ==> r[i] == claims[i].entity
  {
    if claims == [] then [] else Entities(claims[..|claims| - 1]) + [claims[|claims| - 1].entity]
  }

  method MergeAliases(t: Texts, claims: seq<Claim>) returns (r: seq<Claim>)
    ensures |r| == |claims| && Merged(t, Entities(claims), Entities(r))
    ensures forall i :: 0 <= i < |r| ==> r[i] == claims[i].(entity := r[i].entity)
  {
    var entities := Entities(claims);
    r := [];
    for i := 0 to |claims|
      invariant |r| == i
      invariant forall j :: 0 <= j < i ==>
                Aliased(t, entities[j], entities, r[j].entity) && r[j] == claims[j].(entity := r[j].entity)
    {
      var best := LongerAlias(t, claims[i].entity, entities);
      r := r + [claims[i].(entity := best)];
    }
  }

  lemma AliasFrom(t: Texts, entity: string, entities: seq<string>, best: string)
    requires Aliased(t, entity, entities, best)
    ensures best == entity || (best in entities && Admissible(t, entity, best) && |t.tokens(best)| > |t.tokens(entity)|)
  {
  }

  lemma CoversChain(t: Texts, a: string, b: string, c: string)
    requires Covers(t, b, a) && Covers(t, c, b)
    ensures Covers(t, c, a)
  {
    forall i | 0 <= i < |t.tokens(a)| ensures t.tokens(a)[i] in t.tokens(c) {
      var j :| 0 <= j < |t.tokens(b)| && t.tokens(b)[j] == t.tokens(a)[i];
      assert t.tokens(b)[j] in t.tokens(c);
    }
  }

  /** An alias has no longer alias among the aliases. */
  lemma NoLonger(t: Texts, entity: string, entities: seq<string>, best: string, other: string)
    requires Aliased(t, entity, entities, best) && other in entities && !Fixed(t, best) && Admissible(t, best, other)
    ensures |t.tokens(other)| <= |t.tokens(best)|
  {
    AliasFrom(t, entity, entities, best);
    assert Covers(t, entity, entity);
    if best == entity {
      CoversChain(t, entity, best, other);
    } else {
      CoversChain(t, entity, best, other);
    }
    var i :| 0 <= i < |entities| && entities[i] == other;
    assert !Fixed(t, entity) && (other != entity ==> Admissible(t, entity, entities[i]));
  }

  /** Merging aliases a second time changes nothing. */
  lemma MergeIsIdempotent(t: Texts, before: seq<string>, after: seq<string>, again: seq<string>)
    requires Merged(t, before, after) && Merged(t, after, again)
    ensures again == after
  {
    forall i | 0 <= i < |after| ensures again[i] == after[i] {
      if !Fixed(t, after[i]) {
        AliasFrom(t, after[i], after, again[i]);
        if again[i] != after[i] {
          var j :| 0 <= j < |after| && after[j] == again[i];
          AliasFrom(t, before[j], before, after[j]);
          assert before[j] in before;
          NoLonger(t, before[i], before, after[i], again[i]);
        }
      }
    }
  }

  // ------------------------------------------------------------ deduplication

  predicate Prefer(incoming: Claim, existing: Claim) {
    if incoming.kind.Fact? != existing.kind.Fact? then incoming.kind.Fact?
      else incoming.confidence >= existing.confidence
  }

  /** The claim that replaces another keeps that one's article when it has none. */
  function Replaced(incoming: Claim, existing: Claim): Claim {
    if incoming.article == ""
      then incoming.(article := existing.article, source := existing.source, country := existing.country) else incoming
  }

  /** A fact is preferred over what is none, and between equals the more confident, or the later. */
  lemma PreferredExactlyWhen(c: Claim, d: Claim)
    ensures Prefer(c, d) <==> (c.kind == Fact && d.kind != Fact)
                              || ((c.kind == Fact <==> d.kind == Fact) && c.confidence >= d.confidence)
  {
  }

  /** A claim without an article takes over article, source and country, and nothing else. */
  lemma ReplacedKeeps(c: Claim, d: Claim)
    ensures c.article != "" ==> Replaced(c, d) == c
    ensures c.article == "" ==>
      var r := Replaced(c, d);
      && r.article == d.article && r.source == d.source && r.country == d.country
      && r.(article := c.article, source := c.source, country := c.country) == c
  {
  }

  /** The first kept claim with a fingerprint; `|kept|` when there is none. */
  function Find(p: Printing, kept: seq<Claim>, f: string): (i: nat)
    ensures i <= |kept|
    ensures i < |kept| ==> Fingerprint(p, kept[i]) == f
    ensures forall j :: 0 <= j < i ==> Fingerprint(p, kept[j]) != f
  {
    if kept == [] then 0
    else
      var i := Find(p, kept[..|kept| - 1], f);
      if i < |kept| - 1 then i else if Fingerprint(p, kept[|kept| - 1]) == f then |kept| - 1 else |kept|
  }

  function Settle(p: Printing, kept: seq<Claim>, c: Claim): seq<Claim> {
    var i := Find(p, kept, Fingerprint(p, c));
    if i == |kept| then kept + [c] else if Prefer(c, kept[i]) then kept[i := Replaced(c, kept[i])] else kept
  }

  function Dedupe(p: Printing, claims: seq<Claim>): seq<Claim> {
    if claims == [] then [] else Settle(p, Dedupe(p, claims[..|claims| - 1]), claims[|claims| - 1])
  }

  method DedupeClaims(p: Printing, claims: seq<Claim>) returns (kept: seq<Claim>)
    ensures kept == Dedupe(p, claims)
  {
    kept := [];
    for n := 0 to |claims|
      invariant kept == Dedupe(p, claims[..n])
    {
      assert claims[..n + 1][..n] == claims[..n];
      var i := Find(p, kept, Fingerprint(p, claims[n]));
      if i == |kept| {
        kept := kept + [claims[n]];
      } else if Prefer(claims[n], kept[i]) {
        var existing := kept[i];
        var now := claims[n];
        if now.article == "" {
          now := now.(article := existing.article, source := existing.source, country := existing.country);
        }
        kept := kept[i := now];
      }
    }
    assert claims[..|claims|] == claims;
  }

  ghost predicate Has(p: Printing, claims: seq<Claim>, f: string) {
    exists i :: 0 <= i < |claims| && Fingerprint(p, claims[i]) == f
  }

  ghost predicate AllDifferent(p: Printing, claims: seq<Claim>) {
    forall i, j :: 0 <= i < j < |claims| ==> Fingerprint(p, claims[i]) != Fingerprint(p, claims[j])
  }

  ghost predicate SameFingerprints(p: Printing, a: seq<Claim>, b: seq<Claim>) {
    forall f :: Has(p, a, f) <==> Has(p, b, f)
  }

  /** Taking in `c` replaces a claim by one with another fingerprint. */
  predicate Drifts(p: Printing, kept: seq<Claim>, c: Claim) {
    var i := Find(p, kept, Fingerprint(p, c));
    i < |kept| && Prefer(c, kept[i]) && Fingerprint(p, Replaced(c, kept[i])) != Fingerprint(p, c)
  }

  /** A replacement changes the fingerprint exactly when an unattributed assertion takes over
      the article of an already qualified claim that has another article or source. */
  lemma DriftsExactlyWhen(p: Printing, incoming: Claim, existing: Claim)
    requires Injective(p) && Fingerprint(p, incoming) == Fingerprint(p, existing)
    ensures Fingerprint(p, Replaced(incoming, existing)) != Fingerprint(p, incoming) <==>
      incoming.qualified.None? && incoming.kind.Assertion? && incoming.article == "" &&
      existing.qualified.Some? && (existing.article != "" || existing.source != incoming.source)
  {
    if incoming.qualified.None? && incoming.kind.Assertion? && incoming.article == "" {
      var now := Replaced(incoming, existing);
      assert p.show(KeyOf(p, now)) == p.show(KeyOf(p, incoming)) ==> KeyOf(p, now) == KeyOf(p, incoming);
      if existing.qualified.None? {
        assert p.show(KeyOf(p, existing)) == p.show(KeyOf(p, incoming));
        assert KeyOf(p, existing) == KeyOf(p, incoming);
      }
    }
  }

  /** No step of the run drifts. */
  predicate Steady(p: Printing, claims: seq<Claim>) {
    claims == [] || (Steady(p, claims[..|claims| - 1])
      && !Drifts(p, Dedupe(p, claims[..|claims| - 1]), claims[|claims| - 1]))
  }

  lemma HasMore(p: Printing, claims: seq<Claim>, c: Claim, f: string)
    ensures Has(p, claims + [c], f) <==> Has(p, claims, f) || Fingerprint(p, c) == f
  {
    if Has(p, claims, f) {
      var i :| 0 <= i < |claims| && Fingerprint(p, claims[i]) == f;
      assert (claims + [c])[i] == claims[i];
    }
    if Fingerprint(p, c) == f { assert (claims + [c])[|claims|] == c; }
  }

  lemma SettleKeeps(p: Printing, kept: seq<Claim>, c: Claim)
    requires AllDifferent(p, kept) && !Drifts(p, kept, c)
    ensures AllDifferent(p, Settle(p, kept, c))
    ensures forall f :: Has(p, Settle(p, kept, c), f) <==> Has(p, kept, f) || f == Fingerprint(p, c)
  {
    var i, now := Find(p, kept, Fingerprint(p, c)), Settle(p, kept, c);
    if i == |kept| {
      forall f ensures Has(p, now, f) <==> Has(p, kept, f) || f == Fingerprint(p, c) { HasMore(p, kept, c, f); }
    } else {
      assert forall j :: 0 <= j < |kept| ==> Fingerprint(p, now[j]) == Fingerprint(p, kept[j]);
      forall f ensures Has(p, now, f) <==> Has(p, kept, f) || f == Fingerprint(p, c) {
        if Has(p, kept, f) {
          var j :| 0 <= j < |kept| && Fingerprint(p, kept[j]) == f;
          assert Fingerprint(p, now[j]) == f;
        }
      }
    }
  }

  lemma {:induction false} SteadyKeepsOne(p: Printing, claims: seq<Claim>)
    requires Steady(p, claims)
    ensures AllDifferent(p, Dedupe(p, claims)) && SameFingerprints(p, claims, Dedupe(p, claims))
  {
    if claims != [] {
      var rest, c := claims[..|claims| - 1], claims[|claims| - 1];
      SteadyKeepsOne(p, rest);
      SettleKeeps(p, Dedupe(p, rest), c);
      assert claims == rest + [c];
      forall f ensures Has(p, claims, f) <==> Has(p, Dedupe(p, claims), f) { HasMore(p, rest, c, f); }
    }
  }

  lemma DriftLoses(p: Printing, kept: seq<Claim>, c: Claim)
    requires AllDifferent(p, kept) && Drifts(p, kept, c)
    ensures !Has(p, Settle(p, kept, c), Fingerprint(p, c))
  {
  }

  lemma {:induction false} KeepsFingerprintsWhileSteady(p: Printing, claims: seq<Claim>)
    ensures (forall n :: 0 <= n <= |claims| ==> SameFingerprints(p, claims[..n], Dedupe(p, claims[..n]))) <==>
            Steady(p, claims)
  {
    if Steady(p, claims) {
      forall n | 0 <= n <= |claims| ensures SameFingerprints(p, claims[..n], Dedupe(p, claims[..n])) {
        SteadyPrefix(p, claims, n);
        SteadyKeepsOne(p, claims[..n]);
      }
    } else {
      var rest, c := claims[..|claims| - 1], claims[|claims| - 1];
      assert claims[..|claims|] == claims && claims == rest + [c];
      if Steady(p, rest) {
        SteadyKeepsOne(p, rest);
        DriftLoses(p, Dedupe(p, rest), c);
        HasMore(p, rest, c, Fingerprint(p, c));
        assert !SameFingerprints(p, claims[..|claims|], Dedupe(p, claims[..|claims|]));
      } else {
        KeepsFingerprintsWhileSteady(p, rest);
        var n :| 0 <= n <= |rest| && !SameFingerprints(p, rest[..n], Dedupe(p, rest[..n]));
        assert rest[..n] == claims[..n];
      }
    }
  }

  lemma {:induction false} SteadyPrefix(p: Printing, claims: seq<Claim>, n: nat)
    requires Steady(p, claims) && n <= |claims|
    ensures Steady(p, claims[..n])
    decreases |claims|
  {
    if n < |claims| {
      assert claims[..|claims| - 1][..n] == claims[..n];
      SteadyPrefix(p, claims[..|claims| - 1], n);
    } else {
      assert claims[..n] == claims;
    }
  }

  /** A claim of the same fingerprint and no worse. */
  predicate Answers(p: Printing, kept: Claim, c: Claim) {
    Fingerprint(p, kept) == Fingerprint(p, c) && Prefer(kept, c)
  }

  lemma {:induction false} SteadyKeepsBest(p: Printing, claims: seq<Claim>, i: nat)
    requires Steady(p, claims) && i < |claims|
    ensures exists k :: 0 <= k < |Dedupe(p, claims)| && Answers(p, Dedupe(p, claims)[k], claims[i])
    decreases |claims|
  {
    var rest, c := claims[..|claims| - 1], claims[|claims| - 1];
    var kept, now := Dedupe(p, rest), Dedupe(p, claims);
    var at := Find(p, kept, Fingerprint(p, c));
    if i == |rest| {
      assert Prefer(c, c);
      if at == |kept| {
        assert Answers(p, now[|kept|], c);
      } else {
        assert Answers(p, now[at], c);
      }
    } else {
      SteadyKeepsBest(p, rest, i);
      var k :| 0 <= k < |kept| && Answers(p, kept[k], rest[i]);
      assert Answers(p, now[k], claims[i]);
    }
  }

  /** An existing qualified claim and an unattributed assertion printed alike: the fingerprint
      they share is gone. */
  lemma DedupeDrifts(p: Printing, c: Claim) returns (claims: seq<Claim>)
    requires Injective(p) && c.qualified.None? && c.kind.Assertion? && c.article == ""
    ensures Has(p, claims, Fingerprint(p, c)) && !Has(p, Dedupe(p, claims), Fingerprint(p, c))
  {
    var older := c.(qualified := Some(Fingerprint(p, c)), article := "article");
    claims := [older, c];
    assert claims[..1] == [older] && [older][..0] == [];
    assert Dedupe(p, [older]) == [older];
    DriftsExactlyWhen(p, c, older);
    assert Find(p, [older], Fingerprint(p, c)) == 0;
    DriftLoses(p, [older], c);
    assert Fingerprint(p, claims[1]) == Fingerprint(p, c);
  }

  // ------------------------------------- takeovers, as the claims that come in show them

  /** An assertion that names no article and is not qualified. */
  predicate Unattributed(c: Claim) { c.qualified.None? && c.kind.Assertion? && c.article == "" }

  /** The claims with a fingerprint, in order. */
  function Alike(p: Printing, claims: seq<Claim>, f: string): (r: seq<Claim>)
    ensures forall c :: c in r ==> c in claims && Fingerprint(p, c) == f
  {
    if claims == [] then []
    else
      var rest, c := claims[..|claims| - 1], claims[|claims| - 1];
      Alike(p, rest, f) + if Fingerprint(p, c) == f then [c] else []
  }

  /** The claim is preferred over every claim of the group. */
  predicate Tops(group: seq<Claim>, c: Claim) {
    forall j :: 0 <= j < |group| ==> Prefer(c, group[j])
  }

  /** The claim whose article stands for a group: the last that names one and topped all before
      it, or else the first. */
  function Credit(group: seq<Claim>): (r: Claim)
    requires group != []
    ensures r in group
  {
    var rest, c := group[..|group| - 1], group[|group| - 1];
    if rest == [] || (c.article != "" && Tops(rest, c)) then c else Credit(rest)
  }

  /** An unattributed assertion that tops a group takes over its article, which is not its own. */
  predicate TakesOver(group: seq<Claim>, c: Claim) {
    && Unattributed(c) && group != [] && Tops(group, c)
    && (Credit(group).article != "" || Credit(group).source != c.source)
  }

  /** The claim as the takeover leaves it. */
  function Moved(group: seq<Claim>, c: Claim): Claim
    requires group != []
  {
    c.(article := Credit(group).article, source := Credit(group).source)
  }

  /** The claims that a fingerprint stands for: a takeover empties the group and adds the claim,
      as it leaves it, to the group of its new fingerprint. */
  function Group(p: Printing, claims: seq<Claim>, f: string): seq<Claim> {
    if claims == [] then []
    else
      var rest, c := claims[..|claims| - 1], claims[|claims| - 1];
      var own, others := Group(p, rest, Fingerprint(p, c)), Group(p, rest, f);
      if !TakesOver(own, c) then (if Fingerprint(p, c) == f then others + [c] else others)
      else if Fingerprint(p, c) == f then []
      else if Fingerprint(p, Moved(own, c)) == f then others + [Moved(own, c)]
      else others
  }

  /** A takeover onto a fingerprint that stands for something already. */
  predicate Collides(p: Printing, rest: seq<Claim>, c: Claim) {
    var own := Group(p, rest, Fingerprint(p, c));
    TakesOver(own, c) && Group(p, rest, Fingerprint(p, Moved(own, c))) != []
  }

  /** No claim collides with those before it. */
  predicate Orderly(p: Printing, claims: seq<Claim>) {
    claims == [] || (Orderly(p, claims[..|claims| - 1]) && !Collides(p, claims[..|claims| - 1], claims[|claims| - 1]))
  }

  /** The claim takes over those before it that are printed like it. */
  predicate TakesOverAlike(p: Printing, rest: seq<Claim>, c: Claim) { TakesOver(Alike(p, rest, Fingerprint(p, c)), c) }

  /** No claim takes over those before it that are printed like it. */
  predicate NoTakeover(p: Printing, claims: seq<Claim>) {
    claims == [] || (NoTakeover(p, claims[..|claims| - 1])
      && !TakesOverAlike(p, claims[..|claims| - 1], claims[|claims| - 1]))
  }

  predicate SameRank(c: Claim, d: Claim) { c.kind.Fact? == d.kind.Fact? && c.confidence == d.confidence }

  /** `h` is what deduplication holds for a group. */
  ghost predicate StandsFor(p: Printing, group: seq<Claim>, f: string, h: Claim) {
    && group != [] && Fingerprint(p, h) == f && Tops(group, h)
    && (exists j :: 0 <= j < |group| && SameRank(h, group[j]))
    && h.article == Credit(group).article && h.source == Credit(group).source
  }

  lemma PreferIsTops(p: Printing, group: seq<Claim>, f: string, h: Claim, c: Claim)
    requires StandsFor(p, group, f, h)
    ensures Prefer(c, h) <==> Tops(group, c)
  {
    var j :| 0 <= j < |group| && SameRank(h, group[j]);
    if Tops(group, c) { assert Prefer(c, group[j]); }
  }

  lemma CreditMore(group: seq<Claim>, c: Claim)
    requires group != []
    ensures Credit(group + [c]) == if c.article != "" && Tops(group, c) then c else Credit(group)
  {
    assert (group + [c])[..|group|] == group;
  }

  lemma StandsNext(p: Printing, group: seq<Claim>, f: string, h: Claim, c: Claim)
    requires StandsFor(p, group, f, h) && Fingerprint(p, c) == f
    ensures !Prefer(c, h) ==> StandsFor(p, group + [c], f, h)
    ensures Prefer(c, h) && Fingerprint(p, Replaced(c, h)) == f ==> StandsFor(p, group + [c], f, Replaced(c, h))
  {
    CreditMore(group, c);
    PreferIsTops(p, group, f, h, c);
    var more := group + [c];
    assert more[|group|] == c && SameRank(Replaced(c, h), more[|group|]);
    var j :| 0 <= j < |group| && SameRank(h, group[j]);
    assert more[j] == group[j];
  }

  lemma StandsAlone(p: Printing, c: Claim)
    ensures StandsFor(p, [c], Fingerprint(p, c), c)
  {
    assert SameRank(c, [c][0]) && Credit([c]) == c;
  }

  /** What is held drifts exactly when the group is taken over. */
  lemma DriftIsTakeover(p: Printing, group: seq<Claim>, f: string, h: Claim, c: Claim)
    requires Injective(p) && StandsFor(p, group, f, h) && Fingerprint(p, c) == f && Prefer(c, h)
    ensures Fingerprint(p, Replaced(c, h)) != f <==> TakesOver(group, c)
    ensures TakesOver(group, c) ==> Fingerprint(p, Replaced(c, h)) == Fingerprint(p, Moved(group, c))
  {
    PreferIsTops(p, group, f, h, c);
    DriftsExactlyWhen(p, c, h);
    if Unattributed(c) && h.qualified.None? {
      assert p.show(KeyOf(p, h)) == p.show(KeyOf(p, c));
    }
    if TakesOver(group, c) {
      assert KeyOf(p, Replaced(c, h)) == KeyOf(p, Moved(group, c));
    }
  }

  ghost predicate HeldAt(p: Printing, group: seq<Claim>, kept: seq<Claim>, f: string) {
    if group == [] then !Has(p, kept, f)
    else Find(p, kept, f) < |kept| && StandsFor(p, group, f, kept[Find(p, kept, f)])
  }

  /** The kept claims are one for each group. */
  ghost predicate Held(p: Printing, claims: seq<Claim>, kept: seq<Claim>) {
    AllDifferent(p, kept) && forall f :: HeldAt(p, Group(p, claims, f), kept, f)
  }

  lemma FindMore(p: Printing, kept: seq<Claim>, c: Claim, f: string)
    ensures Find(p, kept + [c], f) ==
      if Find(p, kept, f) < |kept| then Find(p, kept, f) else if Fingerprint(p, c) == f then |kept| else |kept| + 1
  {
    assert (kept + [c])[..|kept|] == kept;
  }

  lemma HasIsFound(p: Printing, kept: seq<Claim>, f: string)
    ensures Has(p, kept, f) <==> Find(p, kept, f) < |kept|
  {
  }

  /** In a list of different fingerprints the place of one is where it is found. */
  lemma FoundAt(p: Printing, kept: seq<Claim>, k: nat, f: string)
    requires AllDifferent(p, kept) && k < |kept| && Fingerprint(p, kept[k]) == f
    ensures Find(p, kept, f) == k
  {
  }

  lemma FindUpdated(p: Printing, kept: seq<Claim>, k: nat, now: Claim, f: string)
    requires AllDifferent(p, kept) && k < |kept| && AllDifferent(p, kept[k := now])
    ensures f != Fingerprint(p, kept[k]) && f != Fingerprint(p, now) ==>
      (Find(p, kept[k := now], f) < |kept| <==> Find(p, kept, f) < |kept|) &&
      (Find(p, kept, f) < |kept| ==> Find(p, kept[k := now], f) == Find(p, kept, f) != k)
    ensures f == Fingerprint(p, now) ==> Find(p, kept[k := now], f) == k
    ensures f == Fingerprint(p, kept[k]) && f != Fingerprint(p, now) ==> !Has(p, kept[k := now], f)
  {
    var next := kept[k := now];
    if f == Fingerprint(p, now) { FoundAt(p, next, k, f); }
    if f != Fingerprint(p, kept[k]) && f != Fingerprint(p, now) {
      HasIsFound(p, kept, f);
      HasIsFound(p, next, f);
      if Has(p, kept, f) {
        var j := Find(p, kept, f);
        assert next[j] == kept[j];
        FoundAt(p, next, j, f);
      }
      if Has(p, next, f) {
        var j := Find(p, next, f);
        assert kept[j] == next[j];
      }
    }
  }

  lemma GroupMore(p: Printing, claims: seq<Claim>, c: Claim, f: string)
    ensures var own, others := Group(p, claims, Fingerprint(p, c)), Group(p, claims, f);
            Group(p, claims + [c], f) ==
              if !TakesOver(own, c) then (if Fingerprint(p, c) == f then others + [c] else others)
              else if Fingerprint(p, c) == f then []
              else if Fingerprint(p, Moved(own, c)) == f then others + [Moved(own, c)]
              else others
  {
    assert (claims + [c])[..|claims|] == claims;
  }

  /** A claim of a new fingerprint. */
  lemma HeldAppended(p: Printing, rest: seq<Claim>, kept: seq<Claim>, c: Claim)
    requires Held(p, rest, kept) && Group(p, rest, Fingerprint(p, c)) == []
    ensures Settle(p, kept, c) == kept + [c] && Held(p, rest + [c], kept + [c])
  {
    var g := Fingerprint(p, c);
    assert HeldAt(p, Group(p, rest, g), kept, g);
    HasIsFound(p, kept, g);
    forall f ensures HeldAt(p, Group(p, rest + [c], f), kept + [c], f) {
      assert HeldAt(p, Group(p, rest, f), kept, f);
      GroupMore(p, rest, c, f);
      FindMore(p, kept, c, f);
      HasMore(p, kept, c, f);
      StandsAlone(p, c);
      assert f == g ==> Group(p, rest + [c], f) == [c];
    }
  }

  lemma StillDifferent(p: Printing, kept: seq<Claim>, k: nat, now: Claim)
    requires AllDifferent(p, kept) && k < |kept|
    requires Fingerprint(p, now) == Fingerprint(p, kept[k]) || !Has(p, kept, Fingerprint(p, now))
    ensures AllDifferent(p, kept[k := now])
  {
  }

  /** A claim that joins its group, preferred or not. */
  lemma HeldJoined(p: Printing, rest: seq<Claim>, kept: seq<Claim>, c: Claim)
    requires Injective(p) && Held(p, rest, kept)
    requires var own := Group(p, rest, Fingerprint(p, c)); own != [] && !TakesOver(own, c)
    ensures Held(p, rest + [c], Settle(p, kept, c))
  {
    var g := Fingerprint(p, c);
    var own, k := Group(p, rest, g), Find(p, kept, g);
    assert HeldAt(p, own, kept, g);
    var next := Settle(p, kept, c);
    StandsNext(p, own, g, kept[k], c);
    if Prefer(c, kept[k]) {
      DriftIsTakeover(p, own, g, kept[k], c);
      StillDifferent(p, kept, k, Replaced(c, kept[k]));
    }
    forall f ensures HeldAt(p, Group(p, rest + [c], f), next, f) {
      assert HeldAt(p, Group(p, rest, f), kept, f);
      GroupMore(p, rest, c, f);
      if Prefer(c, kept[k]) {
        FindUpdated(p, kept, k, Replaced(c, kept[k]), f);
        HasIsFound(p, kept, f);
        HasIsFound(p, next, f);
      }
    }
  }

  /** A takeover onto a fingerprint that stands for nothing yet. */
  lemma HeldMoved(p: Printing, rest: seq<Claim>, kept: seq<Claim>, c: Claim)
    requires Injective(p) && Held(p, rest, kept)
    requires TakesOver(Group(p, rest, Fingerprint(p, c)), c) && !Collides(p, rest, c)
    ensures Held(p, rest + [c], Settle(p, kept, c))
  {
    var g := Fingerprint(p, c);
    var own, k := Group(p, rest, g), Find(p, kept, g);
    assert HeldAt(p, own, kept, g);
    PreferIsTops(p, own, g, kept[k], c);
    DriftIsTakeover(p, own, g, kept[k], c);
    var now, t := Replaced(c, kept[k]), Fingerprint(p, Moved(own, c));
    assert HeldAt(p, Group(p, rest, t), kept, t);
    StillDifferent(p, kept, k, now);
    MovedStands(p, own, kept[k], c, now);
    forall f ensures HeldAt(p, Group(p, rest + [c], f), kept[k := now], f) {
      assert HeldAt(p, Group(p, rest, f), kept, f);
      MovedGroup(p, rest, c, f);
      HeldMovedAt(p, Group(p, rest, f), kept, k, now, [Moved(own, c)], f);
    }
  }

  lemma MovedGroup(p: Printing, rest: seq<Claim>, c: Claim, f: string)
    requires TakesOver(Group(p, rest, Fingerprint(p, c)), c) && !Collides(p, rest, c)
    ensures var own := Group(p, rest, Fingerprint(p, c));
            Group(p, rest + [c], f) ==
              if f == Fingerprint(p, c) then [] else if f == Fingerprint(p, Moved(own, c)) then [Moved(own, c)]
                else Group(p, rest, f)
  {
    GroupMore(p, rest, c, f);
  }

  /** What a takeover does to one fingerprint. */
  lemma HeldMovedAt(p: Printing, group: seq<Claim>, kept: seq<Claim>, k: nat, now: Claim, moved: seq<Claim>, f: string)
    requires AllDifferent(p, kept) && k < |kept| && AllDifferent(p, kept[k := now]) && HeldAt(p, group, kept, f)
    requires Fingerprint(p, now) != Fingerprint(p, kept[k]) && StandsFor(p, moved, Fingerprint(p, now), now)
    ensures HeldAt(p, if f == Fingerprint(p, kept[k]) then [] else if f == Fingerprint(p, now) then moved
            else group, kept[k := now], f)
  {
    FindUpdated(p, kept, k, now, f);
    HasIsFound(p, kept, f);
    HasIsFound(p, kept[k := now], f);
  }

  lemma MovedStands(p: Printing, own: seq<Claim>, h: Claim, c: Claim, now: Claim)
    requires own != [] && now == Replaced(c, h) && c.article == "" && h.article == Credit(own).article
             && h.source == Credit(own).source
    requires Fingerprint(p, now) == Fingerprint(p, Moved(own, c))
    ensures StandsFor(p, [Moved(own, c)], Fingerprint(p, now), now)
  {
    var m := Moved(own, c);
    assert SameRank(now, [m][0]) && Credit([m]) == m;
  }

  /** A takeover onto a fingerprint in use leaves two claims with it. */
  lemma CollisionRepeats(p: Printing, rest: seq<Claim>, kept: seq<Claim>, c: Claim)
    requires Injective(p) && Held(p, rest, kept) && Collides(p, rest, c)
    ensures !AllDifferent(p, Settle(p, kept, c))
  {
    var g := Fingerprint(p, c);
    var own, k := Group(p, rest, g), Find(p, kept, g);
    assert HeldAt(p, own, kept, g);
    PreferIsTops(p, own, g, kept[k], c);
    DriftIsTakeover(p, own, g, kept[k], c);
    var now, t := Replaced(c, kept[k]), Fingerprint(p, Moved(own, c));
    assert HeldAt(p, Group(p, rest, t), kept, t);
    var j := Find(p, kept, t);
    var next := kept[k := now];
    assert j != k && Fingerprint(p, next[j]) == Fingerprint(p, next[k]);
  }

  lemma HeldNext(p: Printing, rest: seq<Claim>, kept: seq<Claim>, c: Claim)
    requires Injective(p) && Held(p, rest, kept) && !Collides(p, rest, c)
    ensures Held(p, rest + [c], Settle(p, kept, c))
  {
    var own := Group(p, rest, Fingerprint(p, c));
    if own == [] {
      HeldAppended(p, rest, kept, c);
    } else if TakesOver(own, c) {
      HeldMoved(p, rest, kept, c);
    } else {
      HeldJoined(p, rest, kept, c);
    }
  }

  lemma LastSplit(claims: seq<Claim>)
    requires claims != []
    ensures claims == claims[..|claims| - 1] + [claims[|claims| - 1]]
  {
  }

  lemma {:induction false} OrderlyHeld(p: Printing, claims: seq<Claim>)
    requires Injective(p) && Orderly(p, claims)
    ensures Held(p, claims, Dedupe(p, claims))
  {
    if claims == [] {
      forall f ensures HeldAt(p, Group(p, claims, f), [], f) {}
    } else {
      OrderlyHeld(p, claims[..|claims| - 1]);
      HeldNext(p, claims[..|claims| - 1], Dedupe(p, claims[..|claims| - 1]), claims[|claims| - 1]);
      LastSplit(claims);
    }
  }

  lemma {:induction false} OrderlyPrefix(p: Printing, claims: seq<Claim>, n: nat)
    requires Orderly(p, claims) && n <= |claims|
    ensures Orderly(p, claims[..n])
    decreases |claims|
  {
    if n < |claims| {
      assert claims[..|claims| - 1][..n] == claims[..n];
      OrderlyPrefix(p, claims[..|claims| - 1], n);
    } else {
      assert claims[..n] == claims;
    }
  }

  /** After every claim that deduplication takes in, the kept claims have different fingerprints
      if and only if no unattributed assertion takes over a group's article onto a fingerprint
      that stands for something already. */
  lemma {:induction false} DistinctExactlyWhen(p: Printing, claims: seq<Claim>)
    requires Injective(p)
    ensures (forall n :: 0 <= n <= |claims| ==> AllDifferent(p, Dedupe(p, claims[..n]))) <==> Orderly(p, claims)
  {
    if Orderly(p, claims) {
      forall n | 0 <= n <= |claims| ensures AllDifferent(p, Dedupe(p, claims[..n])) {
        OrderlyPrefix(p, claims, n);
        OrderlyHeld(p, claims[..n]);
      }
    } else {
      var n := FirstRepeat(p, claims);
      assert RepeatsAt(p, claims, n);
    }
  }

  /** Two kept claims have one fingerprint after the first `n` claims. */
  ghost predicate RepeatsAt(p: Printing, claims: seq<Claim>, n: nat) {
    n <= |claims| && !AllDifferent(p, Dedupe(p, claims[..n]))
  }

  lemma RepeatsLater(p: Printing, claims: seq<Claim>, m: nat, n: nat)
    requires m <= |claims| && RepeatsAt(p, claims[..m], n)
    ensures RepeatsAt(p, claims, n)
  {
    assert claims[..m][..n] == claims[..n];
  }

  lemma RepeatsNow(p: Printing, claims: seq<Claim>)
    requires !AllDifferent(p, Dedupe(p, claims))
    ensures RepeatsAt(p, claims, |claims|)
  {
    assert claims[..|claims|] == claims;
  }

  lemma {:induction false} FirstRepeat(p: Printing, claims: seq<Claim>) returns (n: nat)
    requires Injective(p) && !Orderly(p, claims)
    ensures RepeatsAt(p, claims, n)
    decreases |claims|
  {
    var rest, c := claims[..|claims| - 1], claims[|claims| - 1];
    if Orderly(p, rest) {
      OrderlyHeld(p, rest);
      CollisionRepeats(p, rest, Dedupe(p, rest), c);
      RepeatsNow(p, claims);
      n := |claims|;
    } else {
      n := FirstRepeat(p, rest);
      RepeatsLater(p, claims, |claims| - 1, n);
    }
  }

  // ------------------------------------------------------ without a takeover

  lemma {:induction false} GroupIsAlike(p: Printing, claims: seq<Claim>, f: string)
    requires NoTakeover(p, claims)
    ensures Group(p, claims, f) == Alike(p, claims, f)
    decreases |claims|
  {
    if claims != [] {
      var rest, c := claims[..|claims| - 1], claims[|claims| - 1];
      GroupIsAlike(p, rest, f);
      GroupIsAlike(p, rest, Fingerprint(p, c));
    }
  }

  lemma {:induction false} NoTakeoverOrderly(p: Printing, claims: seq<Claim>)
    requires NoTakeover(p, claims)
    ensures Orderly(p, claims)
  {
    if claims != [] {
      NoTakeoverOrderly(p, claims[..|claims| - 1]);
      GroupIsAlike(p, claims[..|claims| - 1], Fingerprint(p, claims[|claims| - 1]));
    }
  }

  /** A run drifts exactly when an unattributed assertion takes over the claims before it. */
  lemma {:induction false} SteadyExactlyWhen(p: Printing, claims: seq<Claim>)
    requires Injective(p)
    ensures Steady(p, claims) <==> NoTakeover(p, claims)
  {
    if claims != [] {
      var rest, c := claims[..|claims| - 1], claims[|claims| - 1];
      SteadyExactlyWhen(p, rest);
      if NoTakeover(p, rest) { DriftsAsSeen(p, rest, c); }
    }
  }

  lemma DriftsAsSeen(p: Printing, rest: seq<Claim>, c: Claim)
    requires Injective(p) && NoTakeover(p, rest)
    ensures Drifts(p, Dedupe(p, rest), c) <==> TakesOverAlike(p, rest, c)
  {
    var kept, g := Dedupe(p, rest), Fingerprint(p, c);
    var own := Group(p, rest, g);
    NoTakeoverOrderly(p, rest);
    OrderlyHeld(p, rest);
    GroupIsAlike(p, rest, g);
    assert HeldAt(p, own, kept, g);
    HasIsFound(p, kept, g);
    if own != [] {
      var h := kept[Find(p, kept, g)];
      PreferIsTops(p, own, g, h, c);
      if Prefer(c, h) { DriftIsTakeover(p, own, g, h, c); }
    }
  }

  /** After every claim that deduplication takes in, the kept claims have exactly the
      fingerprints that came in, if and only if no unattributed assertion takes over the claims
      printed like it. */
  lemma KeepsFingerprintsExactlyWhen(p: Printing, claims: seq<Claim>)
    requires Injective(p)
    ensures (forall n :: 0 <= n <= |claims| ==> SameFingerprints(p, claims[..n], Dedupe(p, claims[..n]))) <==>
            NoTakeover(p, claims)
  {
    SteadyExactlyWhen(p, claims);
    KeepsFingerprintsWhileSteady(p, claims);
  }

  /** Without a takeover, one claim is kept for each fingerprint that came in. */
  lemma DedupeKeepsOne(p: Printing, claims: seq<Claim>)
    requires Injective(p) && NoTakeover(p, claims)
    ensures AllDifferent(p, Dedupe(p, claims)) && SameFingerprints(p, claims, Dedupe(p, claims))
  {
    SteadyExactlyWhen(p, claims);
    SteadyKeepsOne(p, claims);
  }

  /** And it is at least as good as every claim of its fingerprint. */
  lemma DedupeKeepsBest(p: Printing, claims: seq<Claim>, i: nat)
    requires Injective(p) && NoTakeover(p, claims) && i < |claims|
    ensures exists k :: 0 <= k < |Dedupe(p, claims)| && Answers(p, Dedupe(p, claims)[k], claims[i])
  {
    SteadyExactlyWhen(p, claims);
    SteadyKeepsBest(p, claims, i);
  }

  // ---------------------------------------------------------- any list of claims

  /** `c`, an unattributed assertion, is preferred over a qualified claim printed like it that
      has another article or source. */
  predicate Usurps(p: Printing, c: Claim, q: Claim) {
    && Unattributed(c) && q.qualified.Some? && Fingerprint(p, q) == Fingerprint(p, c) && Prefer(c, q)
    && (q.article != "" || q.source != c.source)
  }

  ghost predicate Peaceful(p: Printing, pool: seq<Claim>) {
    forall c, q :: c in pool && q in pool ==> !Usurps(p, c, q)
  }

  ghost predicate Over(claims: seq<Claim>, pool: seq<Claim>) {
    forall c :: c in claims ==> c in pool
  }

  lemma TakeoverUsurps(p: Printing, claims: seq<Claim>, c: Claim)
    requires Injective(p) && TakesOverAlike(p, claims, c)
    ensures var q := Credit(Alike(p, claims, Fingerprint(p, c))); q in claims && Usurps(p, c, q)
  {
    var group := Alike(p, claims, Fingerprint(p, c));
    var q := Credit(group);
    var j :| 0 <= j < |group| && group[j] == q;
    assert Prefer(c, group[j]);
    assert p.show(KeyOf(p, q)) == p.show(KeyOf(p, c)) ==> KeyOf(p, q) == KeyOf(p, c);
  }

  lemma {:induction false} PeacefulNoTakeover(p: Printing, pool: seq<Claim>, claims: seq<Claim>)
    requires Injective(p) && Peaceful(p, pool) && Over(claims, pool)
    ensures NoTakeover(p, claims)
  {
    if claims != [] {
      var rest, c := claims[..|claims| - 1], claims[|claims| - 1];
      assert Over(rest, pool) && c in pool;
      PeacefulNoTakeover(p, pool, rest);
      if TakesOverAlike(p, rest, c) { TakeoverUsurps(p, rest, c); }
    }
  }

  lemma DedupeMore(p: Printing, claims: seq<Claim>, c: Claim)
    ensures Dedupe(p, claims + [c]) == Settle(p, Dedupe(p, claims), c)
  {
    assert (claims + [c])[..|claims|] == claims;
  }

  lemma SettleFirst(p: Printing, c: Claim)
    ensures Settle(p, [], c) == [c]
  {
    assert [] + [c] == [c];
  }

  lemma FindFirst(p: Printing, kept: seq<Claim>, f: string)
    requires kept != [] && Fingerprint(p, kept[0]) == f
    ensures Find(p, kept, f) == 0
  {
  }

  lemma FindSecond(p: Printing, b: Claim, a: Claim, f: string)
    requires Fingerprint(p, b) != f && Fingerprint(p, a) == f
    ensures Find(p, [b, a], f) == 1 && Find(p, [b], f) == 1
  {
    var i, j := Find(p, [b, a], f), Find(p, [b], f);
    assert [b][0] == b && [b, a][0] == b && [b, a][..1] == [b];
  }

  /** Two claims after a usurpation: the place of the usurped one is free again. */
  lemma UsurpedOnce(p: Printing, c: Claim, q: Claim)
    requires Injective(p) && Usurps(p, c, q)
    ensures Dedupe(p, [q] + [c]) == [Replaced(c, q)] && Fingerprint(p, Replaced(c, q)) != Fingerprint(p, c)
  {
    DriftsExactlyWhen(p, c, q);
    assert [] + [q] == [q];
    DedupeMore(p, [], q);
    SettleFirst(p, q);
    DedupeMore(p, [q], c);
    FindFirst(p, [q], Fingerprint(p, c));
    assert [q][0 := Replaced(c, q)] == [Replaced(c, q)];
  }

  /** Claims that came twice: the qualified one, the assertion, and both again. */
  lemma UsurpedTwice(p: Printing, c: Claim, q: Claim)
    requires Injective(p) && Usurps(p, c, q)
    ensures Dedupe(p, [q] + [c] + [q] + [c]) == [Replaced(c, q), Replaced(c, q)]
  {
    var f, now := Fingerprint(p, c), Replaced(c, q);
    UsurpedOnce(p, c, q);
    DedupeMore(p, [q] + [c], q);
    FindSecond(p, now, q, f);
    assert Settle(p, [now], q) == [now, q];
    DedupeMore(p, [q] + [c] + [q], c);
    assert Settle(p, [now, q], c) == [now, q][1 := now];
    assert [now, q][1 := now] == [now, now];
  }

  lemma RepeatedPair(p: Printing, c: Claim, d: Claim)
    requires Fingerprint(p, c) == Fingerprint(p, d)
    ensures !AllDifferent(p, [c, d])
  {
    assert Fingerprint(p, [c, d][0]) == Fingerprint(p, [c, d][1]);
  }

  lemma FourOver(c: Claim, q: Claim, pool: seq<Claim>)
    requires c in pool && q in pool
    ensures Over([q] + [c] + [q] + [c], pool)
  {
  }

  /** Every list of claims from a pool, in any order and with repeats, is deduplicated to
      different fingerprints if and only if no claim of the pool usurps another. */
  lemma AlwaysDistinctExactlyWhen(p: Printing, pool: seq<Claim>)
    requires Injective(p)
    ensures (forall claims: seq<Claim> :: Over(claims, pool) ==> AllDifferent(p, Dedupe(p, claims))) <==>
            Peaceful(p, pool)
  {
    if Peaceful(p, pool) {
      forall claims: seq<Claim> | Over(claims, pool) ensures AllDifferent(p, Dedupe(p, claims)) {
        PeacefulNoTakeover(p, pool, claims);
        DedupeKeepsOne(p, claims);
      }
    } else {
      var c, q :| c in pool && q in pool && Usurps(p, c, q);
      UsurpedTwice(p, c, q);
      RepeatedPair(p, Replaced(c, q), Replaced(c, q));
      FourOver(c, q, pool);
    }
  }

  /** Three claims that leave two with one fingerprint: an attributed assertion, a qualified
      claim printed like the unattributed one, and the unattributed one. */
  lemma DedupeCollides(p: Printing, c: Claim) returns (claims: seq<Claim>)
    requires Injective(p) && Unattributed(c)
    ensures claims == [c.(article := "article"), c.(article := "article", qualified := Some(Fingerprint(p, c))), c]
    ensures !AllDifferent(p, Dedupe(p, claims))
  {
    var b := c.(article := "article");
    var a := b.(qualified := Some(Fingerprint(p, c)));
    claims := [b] + [a] + [c];
    assert p.show(KeyOf(p, b)) == p.show(KeyOf(p, c)) ==> KeyOf(p, b) == KeyOf(p, c);
    assert KeyOf(p, Replaced(c, a)) == KeyOf(p, b);
    ThirdCollides(p, b, a, c);
  }

  lemma ThirdCollides(p: Printing, b: Claim, a: Claim, c: Claim)
    requires Fingerprint(p, b) != Fingerprint(p, a) == Fingerprint(p, c) && Prefer(c, a)
    requires Fingerprint(p, Replaced(c, a)) == Fingerprint(p, b)
    ensures !AllDifferent(p, Dedupe(p, [b] + [a] + [c]))
  {
    var f, now := Fingerprint(p, c), Replaced(c, a);
    assert [] + [b] == [b];
    DedupeMore(p, [], b);
    SettleFirst(p, b);
    DedupeMore(p, [b], a);
    FindSecond(p, b, a, f);
    DedupeMore(p, [b] + [a], c);
    assert [b] + [a] == [b, a] && [b, a][1 := now] == [b, now];
    assert Dedupe(p, [b] + [a]) == [b, a] && Dedupe(p, [b] + [a] + [c]) == [b, now];
    RepeatedPair(p, b, now);
  }

  /** `c`, an unattributed assertion, agrees with the qualified claim `q` printed like it. */
  predicate Agrees(p: Printing, c: Claim, q: Claim) {
    (c.qualified.None? && c.kind.Assertion? && c.article == "" && q.qualified.Some?
      && Fingerprint(p, q) == Fingerprint(p, c)) ==>
    (q.article == "" && q.source == c.source)
  }

  /** Enough for a run not to drift. */
  ghost predicate Agreeing(p: Printing, claims: seq<Claim>) {
    forall i, j :: 0 <= i < |claims| && 0 <= j < |claims| ==> Agrees(p, claims[i], claims[j])
  }

  lemma AgreeingIsSteady(p: Printing, claims: seq<Claim>)
    requires Injective(p) && Agreeing(p, claims)
    ensures Steady(p, claims)
  {
    forall c, q | c in claims && q in claims ensures !Usurps(p, c, q) {
      var i :| 0 <= i < |claims| && claims[i] == c;
      var j :| 0 <= j < |claims| && claims[j] == q;
      assert Agrees(p, claims[i], claims[j]);
    }
    PeacefulNoTakeover(p, claims, claims);
    SteadyExactlyWhen(p, claims);
  }

  // ------------------------------------------------------------------- capping

  predicate Above(x: Claim, y: Claim) { x.confidence >= y.confidence }

  /** The `limit` most confident claims, best first. */
  function CapClaims(claims: seq<Claim>, limit: nat): seq<Claim> {
    var sorted := Sort(Above, claims);
    if limit <= |sorted| then sorted[..limit] else sorted
  }

  /** What is cut off is never more confident than what is kept, and nothing else is lost. */
  lemma CapKeepsTop(claims: seq<Claim>, limit: nat) returns (cut: seq<Claim>)
    ensures |CapClaims(claims, limit)| == if limit <= |claims| then limit else |claims|
    ensures multiset(CapClaims(claims, limit)) + multiset(cut) == multiset(claims)
    ensures forall i, j :: 0 <= i < |CapClaims(claims, limit)| && 0 <= j < |cut| ==>
            CapClaims(claims, limit)[i].confidence >= cut[j].confidence
  {
    var sorted := Sort(Above, claims);
    SortSorts(Above, claims);
    if limit <= |sorted| {
      cut := sorted[limit..];
      assert sorted == sorted[..limit] + cut;
      forall i, j | 0 <= i < limit && 0 <= j < |cut| ensures sorted[..limit][i].confidence >= cut[j].confidence {
        assert Above(sorted[i], sorted[limit + j]);
      }
    } else {
      cut := [];
    }
  }

  ghost predicate Fresh(p: Printing, claims: seq<Claim>, c: Claim) {
    forall i :: 0 <= i < |claims| ==> Fingerprint(p, claims[i]) != Fingerprint(p, c)
  }

  lemma {:induction false} InsertFresh(p: Printing, c: Claim, claims: seq<Claim>, d: Claim)
    requires Fresh(p, claims, d) && Fingerprint(p, c) != Fingerprint(p, d)
    ensures Fresh(p, Insert(Above, c, claims), d)
  {
    if claims != [] && !Above(c, claims[0]) {
      assert Fresh(p, claims[1..], d);
      InsertFresh(p, c, claims[1..], d);
    }
  }

  lemma {:induction false} InsertDifferent(p: Printing, c: Claim, claims: seq<Claim>)
    requires AllDifferent(p, claims) && Fresh(p, claims, c)
    ensures AllDifferent(p, Insert(Above, c, claims))
  {
    if claims != [] && !Above(c, claims[0]) {
      assert Fresh(p, claims[1..], c) && Fresh(p, claims[1..], claims[0]) && AllDifferent(p, claims[1..]);
      InsertDifferent(p, c, claims[1..]);
      InsertFresh(p, c, claims[1..], claims[0]);
      HeadDifferent(p, claims[0], Insert(Above, c, claims[1..]));
    } else {
      HeadDifferent(p, c, claims);
    }
  }

  lemma HeadDifferent(p: Printing, c: Claim, claims: seq<Claim>)
    requires AllDifferent(p, claims) && Fresh(p, claims, c)
    ensures AllDifferent(p, [c] + claims)
  {
    var all := [c] + claims;
    forall i, j | 0 <= i < j < |all| ensures Fingerprint(p, all[i]) != Fingerprint(p, all[j]) {
      assert all[j] == claims[j - 1] && (i > 0 ==> all[i] == claims[i - 1]);
    }
  }

  lemma {:induction false} SortFresh(p: Printing, claims: seq<Claim>, d: Claim)
    requires Fresh(p, claims, d)
    ensures Fresh(p, Sort(Above, claims), d)
  {
    if claims != [] {
      assert Fresh(p, claims[1..], d);
      SortFresh(p, claims[1..], d);
      InsertFresh(p, claims[0], Sort(Above, claims[1..]), d);
    }
  }

  lemma {:induction false} SortDifferent(p: Printing, claims: seq<Claim>)
    requires AllDifferent(p, claims)
    ensures AllDifferent(p, Sort(Above, claims))
  {
    if claims != [] {
      assert Fresh(p, claims[1..], claims[0]) && AllDifferent(p, claims[1..]);
      SortDifferent(p, claims[1..]);
      SortFresh(p, claims[1..], claims[0]);
      InsertDifferent(p, claims[0], Sort(Above, claims[1..]));
    }
  }

  // ------------------------------------------------------------------- linking

  datatype Link = Conflict | CrossTopic | CrossCountry | CoMentioned | ContextFor

  datatype Relation = Relation(left: string, right: string, link: Link)

  /** How relations compare names: `differ` for topics and countries. */
  datatype Comparing = Comparing(country: string -> bool, differ: (string, string) -> bool)

  /** A relation and whether a pair of claims has it. */
  datatype Candidate = Candidate(holds: bool, relation: Relation)

  /** The relations that the pair with fingerprints `f` and `g` may have, in order. */
  function Candidates(k: Comparing, x: Claim, y: Claim, f: string, g: string): seq<Candidate> {
    [Candidate(x.entity == y.entity && x.relation == y.relation && x.thing != y.thing, Relation(f, g, Conflict)),
     Candidate(x.entity == y.entity && !k.country(x.entity) && k.differ(x.topic, y.topic), Relation(f, g, CrossTopic)),
     Candidate(x.entity == y.entity && k.differ(x.country, y.country), Relation(f, g, CrossCountry)),
     Candidate(x.article != "" && x.article == y.article && x.entity != y.entity, Relation(f, g, CoMentioned)),
     Candidate(x.context != y.context && x.entity == y.entity,
       if x.context then Relation(f, g, ContextFor) else Relation(g, f, ContextFor))]
  }

  function Holding(candidates: seq<Candidate>): (r: seq<Relation>)
    ensures forall x :: x in r <==>
            exists i :: 0 <= i < |candidates| && candidates[i].holds && candidates[i].relation == x
  {
    if candidates == [] then []
    else
      var before, last := Holding(candidates[..|candidates| - 1]), candidates[|candidates| - 1];
      if last.holds then before + [last.relation] else before
  }

  function PairLinks(p: Printing, k: Comparing, x: Claim, y: Claim): seq<Relation> {
    if Fingerprint(p, x) == Fingerprint(p, y) then []
      else Holding(Candidates(k, x, y, Fingerprint(p, x), Fingerprint(p, y)))
  }

  /** What `of` makes of item `i` with those after it and before `m`. */
  function Row<T, R>(of: (T, T) -> seq<R>, items: seq<T>, i: nat, m: nat): seq<R>
    requires i < |items| && m <= |items|
  {
    if m <= i + 1 then [] else Row(of, items, i, m - 1) + of(items[i], items[m - 1])
  }

  /** What `of` makes of the first `n` items with those after each. */
  function Pairs<T, R>(of: (T, T) -> seq<R>, items: seq<T>, n: nat): seq<R>
    requires n <= |items|
  {
    if n == 0 then [] else Pairs(of, items, n - 1) + Row(of, items, n - 1, |items|)
  }

  method AllPairs<T, R>(of: (T, T) -> seq<R>, items: seq<T>) returns (r: seq<R>)
    ensures r == Pairs(of, items, |items|)
  {
    r := [];
    for i := 0 to |items|
      invariant r == Pairs(of, items, i)
    {
      ghost var before := r;
      for j := i + 1 to |items|
        invariant r == before + Row(of, items, i, j)
      {
        r := r + of(items[i], items[j]);
      }
    }
  }

  lemma {:induction false} RowFrom<T, R>(of: (T, T) -> seq<R>, items: seq<T>, i: nat, m: nat, r: R) returns (j: nat)
    requires i < |items| && m <= |items| && r in Row(of, items, i, m)
    ensures i < j < |items| && r in of(items[i], items[j])
    decreases m
  {
    if r in Row(of, items, i, m - 1) { j := RowFrom(of, items, i, m - 1, r); } else { j := m - 1; }
  }

  lemma {:induction false} PairsFrom<T, R>(of: (T, T) -> seq<R>, items: seq<T>, n: nat, r: R) returns (i: nat, j: nat)
    requires n <= |items| && r in Pairs(of, items, n)
    ensures i < j < |items| && r in of(items[i], items[j])
    decreases n
  {
    InJoin(Pairs(of, items, n - 1), Row(of, items, n - 1, |items|), r);
    if r in Pairs(of, items, n - 1) {
      i, j := PairsFrom(of, items, n - 1, r);
    } else {
      i := n - 1;
      j := RowFrom(of, items, i, |items|, r);
    }
  }

  lemma {:induction false} RowHas<T, R>(of: (T, T) -> seq<R>, items: seq<T>, i: nat, j: nat, m: nat, r: R)
    requires i < j < m <= |items| && r in of(items[i], items[j])
    ensures r in Row(of, items, i, m)
    decreases m
  {
    if j < m - 1 { RowHas(of, items, i, j, m - 1, r); }
  }

  lemma InJoin<R>(a: seq<R>, b: seq<R>, r: R)
    ensures r in a + b <==> r in a || r in b
  {
  }

  lemma PairsStep<T, R>(of: (T, T) -> seq<R>, items: seq<T>, n: nat, r: R)
    requires 0 < n <= |items|
    ensures r in Pairs(of, items, n) <==> r in Pairs(of, items, n - 1) || r in Row(of, items, n - 1, |items|)
  {
    InJoin(Pairs(of, items, n - 1), Row(of, items, n - 1, |items|), r);
  }

  /** No pair is passed over. */
  lemma {:induction false} PairsHave<T, R>(of: (T, T) -> seq<R>, items: seq<T>, i: nat, j: nat, n: nat, r: R)
    requires i < n <= |items| && i < j < |items| && r in of(items[i], items[j])
    ensures r in Pairs(of, items, n)
    decreases n
  {
    if i < n - 1 {
      PairsHave(of, items, i, j, n - 1, r);
      assert r in Pairs(of, items, n - 1);
    } else {
      RowHas(of, items, i, j, |items|, r);
      assert r in Row(of, items, n - 1, |items|);
    }
    PairsStep(of, items, n, r);
  }

  /** Why two claims with fingerprints `f` and `g`, in this order, have a relation. */
  predicate Explains(k: Comparing, x: Claim, y: Claim, f: string, g: string, r: Relation) {
    match r.link
    case Conflict => r.left == f && r.right == g && x.entity == y.entity && x.relation == y.relation
      && x.thing != y.thing
    case CrossTopic => r.left == f && r.right == g && x.entity == y.entity && !k.country(x.entity)
      && k.differ(x.topic, y.topic)
    case CrossCountry => r.left == f && r.right == g && x.entity == y.entity && k.differ(x.country, y.country)
    case CoMentioned => r.left == f && r.right == g && x.article == y.article != "" && x.entity != y.entity
    case ContextFor =>
      x.entity == y.entity &&
      ((x.context && !y.context && r.left == f && r.right == g)
        || (y.context && !x.context && r.left == g && r.right == f))
  }

  predicate Linked(p: Printing, k: Comparing, x: Claim, y: Claim, r: Relation) {
    Fingerprint(p, x) != Fingerprint(p, y) && Explains(k, x, y, Fingerprint(p, x), Fingerprint(p, y), r)
  }

  lemma ExplainedExactlyWhen(k: Comparing, x: Claim, y: Claim, f: string, g: string, r: Relation)
    ensures r in Holding(Candidates(k, x, y, f, g)) <==> Explains(k, x, y, f, g, r)
  {
    var c := Candidates(k, x, y, f, g);
    assert r in Holding(c) <==>
      (c[0].holds && c[0].relation == r) || (c[1].holds && c[1].relation == r) || (c[2].holds && c[2].relation == r)
      || (c[3].holds && c[3].relation == r) || (c[4].holds && c[4].relation == r);
  }

  lemma PairLinkedExactlyWhen(p: Printing, k: Comparing, x: Claim, y: Claim, r: Relation)
    ensures r in PairLinks(p, k, x, y) <==> Linked(p, k, x, y, r)
  {
    ExplainedExactlyWhen(k, x, y, Fingerprint(p, x), Fingerprint(p, y), r);
  }

  /** The relations are exactly those that two claims with different fingerprints explain. */
  lemma RelatedExactlyWhen(p: Printing, k: Comparing, claims: seq<Claim>, r: Relation)
    ensures r in Pairs(Linker(p, k), claims, |claims|) <==>
      exists i, j :: 0 <= i < j < |claims| && Linked(p, k, claims[i], claims[j], r)
  {
    if r in Pairs(Linker(p, k), claims, |claims|) {
      var i, j := PairsFrom(Linker(p, k), claims, |claims|, r);
      PairLinkedExactlyWhen(p, k, claims[i], claims[j], r);
    }
    if i, j :| 0 <= i < j < |claims| && Linked(p, k, claims[i], claims[j], r) {
      PairLinkedExactlyWhen(p, k, claims[i], claims[j], r);
      PairsHave(Linker(p, k), claims, i, j, |claims|, r);
    }
  }

  function Linker(p: Printing, k: Comparing): (Claim, Claim) -> seq<Relation> {
    (x: Claim, y: Claim) => PairLinks(p, k, x, y)
  }

  method LinkClaims(p: Printing, k: Comparing, claims: seq<Claim>) returns (relations: seq<Relation>)
    ensures relations == Pairs(Linker(p, k), claims, |claims|)
  {
    relations := AllPairs(Linker(p, k), claims);
  }

  lemma PairLinkIs(p: Printing, k: Comparing, x: Claim, y: Claim, r: Relation)
    requires r in PairLinks(p, k, x, y)
    ensures Fingerprint(p, x) != Fingerprint(p, y)
    ensures r.link.CoMentioned? <==> x.entity != y.entity
    ensures r.link.ContextFor? ==> x.context != y.context
    ensures r ==
      if r.link.ContextFor? && !x.context then Relation(Fingerprint(p, y), Fingerprint(p, x), r.link)
      else Relation(Fingerprint(p, x), Fingerprint(p, y), r.link)
  {
  }

  /** Every relation joins two different claims of the list, about one entity unless they only
      share an article. */
  lemma RelationJoinsTwo(p: Printing, k: Comparing, claims: seq<Claim>, r: Relation) returns (i: nat, j: nat)
    requires r in Pairs(Linker(p, k), claims, |claims|)
    ensures i < |claims| && j < |claims| && i != j
    ensures r.left == Fingerprint(p, claims[i]) && r.right == Fingerprint(p, claims[j]) && r.left != r.right
    ensures r.link.CoMentioned? <==> claims[i].entity != claims[j].entity
    ensures r.link.ContextFor? ==> claims[i].context && !claims[j].context
  {
    var a, b := PairsFrom(Linker(p, k), claims, |claims|, r);
    PairLinkIs(p, k, claims[a], claims[b], r);
    i, j := if r.link.ContextFor? && !claims[a].context then b else a, if r.link.ContextFor? && !claims[a].context
      then a else b;
  }

  // ---------------------------------------------------------------- settlement

  function Select(claims: seq<Claim>, keep: Claim -> bool): (r: seq<Claim>)
    ensures forall c :: c in r <==> c in claims && keep(c)
  {
    if claims == [] then []
    else
      assert claims == claims[..|claims| - 1] + [claims[|claims| - 1]];
      Select(claims[..|claims| - 1], keep) + if keep(claims[|claims| - 1]) then [claims[|claims| - 1]] else []
  }

  predicate NamedBy(claims: seq<Claim>, entity: string) { exists i :: 0 <= i < |claims| && claims[i].entity == entity }

  predicate Printed(p: Printing, claims: seq<Claim>,
      f: string) { exists i :: 0 <= i < |claims| && Fingerprint(p, claims[i]) == f }

  function Leads(p: Printing, all: seq<Claim>, gated: nat): seq<Claim> {
    var lead := Dedupe(p, Select(all, (c: Claim) => !c.context));
    if gated > 0 then CapClaims(lead, gated) else lead
  }

  /** The context claims that go with the leads. */
  function Contexts(p: Printing, all: seq<Claim>, lead: seq<Claim>): seq<Claim> {
    Select(Select(Select(all, (c: Claim) => c.context), (c: Claim) => NamedBy(lead, c.entity)),
      (c: Claim) => !Printed(p, lead, Fingerprint(p, c)))
  }

  /** Context goes with the leads when one has its entity and none its fingerprint. */
  lemma ContextExactlyWhen(p: Printing, all: seq<Claim>, lead: seq<Claim>, c: Claim)
    ensures c in Contexts(p, all, lead) <==>
      && c in all && c.context
      && (exists d :: d in lead && d.entity == c.entity)
      && (forall d :: d in lead ==> Fingerprint(p, d) != Fingerprint(p, c))
  {
    if d :| d in lead && d.entity == c.entity { var i :| 0 <= i < |lead| && lead[i] == d; }
    if d :| d in lead && Fingerprint(p, d) == Fingerprint(p, c) { var i :| 0 <= i < |lead| && lead[i] == d; }
  }

  function Settled(p: Printing, all: seq<Claim>, gated: nat): seq<Claim> {
    var lead := Leads(p, all, gated);
    lead + Dedupe(p, Contexts(p, all, lead))
  }

  /** Leads come first, no more than the cap, and context claims after them. */
  lemma SettledParts(p: Printing, all: seq<Claim>, gated: nat)
    ensures var lead, all' := Leads(p, all, gated), Dedupe(p, Select(all, (c: Claim) => !c.context));
            && lead <= Settled(p, all, gated)
            && |lead| == (if 0 < gated < |all'| then gated else |all'|)
            && (gated == 0 ==> lead == all')
            && (forall c :: c in lead ==> c in all')
            && Settled(p, all, gated)[|lead|..] == Dedupe(p, Contexts(p, all, lead))
  {
    var deduped := Dedupe(p, Select(all, (c: Claim) => !c.context));
    if gated > 0 { SortSorts(Above, deduped); forall c ensures c in Sort(Above, deduped) <==>
      c in deduped { SortKeeps(Above, deduped, c); } }
  }

  method FinishInsights(p: Printing, t: Texts, k: Comparing, lead: seq<Claim>, context: seq<Claim>,
      gated: nat) returns (merged: seq<Claim>, claims: seq<Claim>, relations: seq<Relation>)
    ensures |merged| == |lead + context| && Merged(t, Entities(lead + context), Entities(merged))
    ensures forall i :: 0 <= i < |merged| ==> merged[i] == (lead + context)[i].(entity := merged[i].entity)
    ensures claims == Settled(p, merged, gated)
    ensures relations == Pairs(Linker(p, k), claims, |claims|)
  {
    merged := MergeAliases(t, lead + context);
    var leads := DedupeClaims(p, Select(merged, (c: Claim) => !c.context));
    if gated > 0 { leads := CapClaims(leads, gated); }
    var contexts := Select(merged, (c: Claim) => c.context);
    contexts := Select(contexts, (c: Claim) => NamedBy(leads, c.entity));
    contexts := Select(contexts, (c: Claim) => !Printed(p, leads, Fingerprint(p, c)));
    var others := DedupeClaims(p, contexts);
    claims := leads + others;
    relations := LinkClaims(p, k, claims);
  }

  /** No lead usurps a lead, and no context claim a context claim. */
  ghost predicate PeacefulApart(p: Printing, all: seq<Claim>) {
    forall c, q :: c in all && q in all && c.context == q.context ==> !Usurps(p, c, q)
  }

  lemma LeadsDifferent(p: Printing, all: seq<Claim>, gated: nat)
    requires Injective(p) && PeacefulApart(p, all)
    ensures AllDifferent(p, Leads(p, all, gated))
  {
    var raw := Select(all, (c: Claim) => !c.context);
    PeacefulNoTakeover(p, raw, raw);
    DedupeKeepsOne(p, raw);
    var lead := Dedupe(p, raw);
    SortDifferent(p, lead);
    assert AllDifferent(p, Sort(Above, lead));
  }

  /** The settled claims all have different fingerprints, unless an unattributed assertion usurps
      a qualified claim of its own side. */
  lemma SettledDifferent(p: Printing, all: seq<Claim>, gated: nat)
    requires Injective(p) && PeacefulApart(p, all)
    ensures AllDifferent(p, Settled(p, all, gated))
  {
    var lead := Leads(p, all, gated);
    var raw := Contexts(p, all, lead);
    LeadsDifferent(p, all, gated);
    PeacefulNoTakeover(p, raw, raw);
    DedupeKeepsOne(p, raw);
    var context := Dedupe(p, raw);
    forall i, j | 0 <= i < |lead| && 0 <= j < |context| ensures Fingerprint(p, lead[i]) != Fingerprint(p, context[j]) {
      var f := Fingerprint(p, context[j]);
      assert Has(p, context, f);
      assert Has(p, raw, f);
      var n :| 0 <= n < |raw| && Fingerprint(p, raw[n]) == f;
      assert raw[n] in raw;
      assert !Printed(p, lead, f);
    }
    JoinDifferent(p, lead, context);
  }

  /** Claims that all name an article always settle to different fingerprints. */
  lemma AttributedSettleDifferent(p: Printing, all: seq<Claim>, gated: nat)
    requires Injective(p) && forall c :: c in all ==> c.article != ""
    ensures AllDifferent(p, Settled(p, all, gated))
  {
    SettledDifferent(p, all, gated);
  }

  /** Every list of leads from a pool settles to different fingerprints if and only if no claim
      of the pool usurps another; a cap of one claim aside, which leaves no two. */
  lemma LeadsSettleExactlyWhen(p: Printing, pool: seq<Claim>, gated: nat)
    requires Injective(p) && gated != 1 && forall c :: c in pool ==> !c.context
    ensures (forall all: seq<Claim> :: Over(all, pool) ==> AllDifferent(p, Settled(p, all, gated))) <==>
            Peaceful(p, pool)
  {
    if Peaceful(p, pool) {
      forall all: seq<Claim> | Over(all, pool) ensures AllDifferent(p, Settled(p, all, gated)) {
        PeacefulSettles(p, pool, all, gated);
      }
    } else {
      var all := UsurpedLeads(p, pool, gated);
    }
  }

  lemma PeacefulSettles(p: Printing, pool: seq<Claim>, all: seq<Claim>, gated: nat)
    requires Injective(p) && Peaceful(p, pool) && Over(all, pool)
    ensures AllDifferent(p, Settled(p, all, gated))
  {
    SettledDifferent(p, all, gated);
  }

  lemma UsurpedLeads(p: Printing, pool: seq<Claim>, gated: nat) returns (all: seq<Claim>)
    requires Injective(p) && gated != 1 && !Peaceful(p, pool) && forall c :: c in pool ==> !c.context
    ensures Over(all, pool) && !AllDifferent(p, Settled(p, all, gated))
  {
    var c, q :| c in pool && q in pool && Usurps(p, c, q);
    UsurpationShows(p, c, q, gated);
    FourOver(c, q, pool);
    all := [q] + [c] + [q] + [c];
  }

  lemma UsurpationShows(p: Printing, c: Claim, q: Claim, gated: nat)
    requires Injective(p) && gated != 1 && Usurps(p, c, q) && !c.context && !q.context
    ensures !AllDifferent(p, Settled(p, [q] + [c] + [q] + [c], gated))
  {
    var all, now := [q] + [c] + [q] + [c], Replaced(c, q);
    UsurpedTwice(p, c, q);
    SelectAll(all, (x: Claim) => !x.context);
    CapTwo(now, gated);
    var lead := Leads(p, all, gated);
    assert lead == [now, now];
    RepeatedPair(p, now, now);
    var context := Dedupe(p, Contexts(p, all, lead));
    if AllDifferent(p, lead + context) { FrontDifferent(p, lead, context); }
  }

  lemma CapTwo(c: Claim, limit: nat)
    ensures limit >= 2 ==> CapClaims([c, c], limit) == [c, c]
  {
    assert [c, c][1..] == [c] && [c][1..] == [];
    assert Sort(Above, [c]) == [c];
    assert Sort(Above, [c, c]) == [c, c];
    assert limit == 2 ==> [c, c][..limit] == [c, c];
  }

  lemma {:induction false} SelectAll(claims: seq<Claim>, keep: Claim -> bool)
    requires forall c :: c in claims ==> keep(c)
    ensures Select(claims, keep) == claims
  {
    if claims != [] {
      LastSplit(claims);
      SelectAll(claims[..|claims| - 1], keep);
    }
  }

  lemma FrontDifferent(p: Printing, front: seq<Claim>, rest: seq<Claim>)
    requires AllDifferent(p, front + rest)
    ensures AllDifferent(p, front)
  {
    forall i, j | 0 <= i < j < |front| ensures Fingerprint(p, front[i]) != Fingerprint(p, front[j]) {
      assert (front + rest)[i] == front[i] && (front + rest)[j] == front[j];
    }
  }

  lemma JoinDifferent(p: Printing, a: seq<Claim>, b: seq<Claim>)
    requires AllDifferent(p, a) && AllDifferent(p, b)
    requires forall i, j :: 0 <= i < |a| && 0 <= j < |b| ==> Fingerprint(p, a[i]) != Fingerprint(p, b[j])
    ensures AllDifferent(p, a + b)
  {
    forall i, j | 0 <= i < j < |a + b| ensures Fingerprint(p, (a + b)[i]) != Fingerprint(p, (a + b)[j]) {
      if j >= |a| && i < |a| { assert (a + b)[j] == b[j - |a|]; }
    }
  }
}
