/** Finding catalog actors in article fields by whole-word names. */
module Matcher {
  import opened Tokenizing
  import opened Normalized
  import opened Names

  datatype Actor = Actor(source: string, name: string, aliases: seq<string>)

  /** `owners` maps each padded key to the actors that carry it. */
  datatype Catalog = Catalog(actors: seq<Actor>, owners: map<string, set<nat>>)

  datatype Match = Match(pattern: string, start: nat, end: nat)

  /** A place in a field.  Its comparison key is `NormalizeAlias` of the original text. */
  datatype Mention = Mention(field: nat, start: nat, end: nat, original: string)

  datatype Found = Found(spellings: seq<string>, mentions: seq<Mention>)

  const SHORTEST_KEY: nat := 3

  /** Short forms tied to single catalog entries. */
  function Curated(source: string): seq<string> {
    if source == "os:Q22686" then ["Trump"] else []
  }

  function Padded(key: string): string { " " + key + " " }

  // ------------------------------------------------------------- the catalog

  predicate Carries(key: string, pattern: string) {
    |key| >= SHORTEST_KEY && pattern == Padded(key)
  }

  /** One of the first `n` keys is long enough and is the pattern's. */
  predicate CarriesOne(keys: seq<string>, n: nat, pattern: string)
    requires n <= |keys|
  {
    exists i :: 0 <= i < n && Carries(keys[i], pattern)
  }

  function Keys(a: Alphabet, names: seq<string>): (r: seq<string>)
    ensures |r| == |names|
    ensures forall i :: 0 <= i < |names| ==> r[i] == NormalizeAlias(a, names[i])
  {
    if names == [] then [] else Keys(a, names[..|names| - 1]) + [NormalizeAlias(a, names[|names| - 1])]
  }

  predicate Named(a: Alphabet, actor: Actor, pattern: string) {
    CarriesOne(Keys(a, AllNames(actor)), |Keys(a, AllNames(actor))|, pattern)
  }

  function AllNames(actor: Actor): seq<string> { [actor.name] + actor.aliases }

  function OwnersOf(owners: map<string, set<nat>>, pattern: string): set<nat> {
    if pattern in owners then owners[pattern] else {}
  }

  /** Each key is owned by exactly the actors that carry it. */
  ghost predicate Indexes(a: Alphabet, c: Catalog) {
    && (forall p, i: nat {:trigger i in OwnersOf(c.owners, p)} :: i in OwnersOf(c.owners, p) <==>
       i < |c.actors| && Named(a, c.actors[i], p))
    && (forall p :: p in c.owners ==> c.owners[p] != {})
  }

  function Extended(actor: Actor): Actor {
    actor.(aliases := actor.aliases + Curated(actor.source))
  }

  /** The names of a catalog entry: its own, its aliases and, for one entry, a short form. */
  predicate HasName(actor: Actor, name: string) {
    name == actor.name || name in actor.aliases || (actor.source == "os:Q22686" && name == "Trump")
  }

  lemma NamesAre(actor: Actor, name: string)
    ensures name in AllNames(Extended(actor)) <==> HasName(actor, name)
  {
    assert AllNames(Extended(actor)) == [actor.name] + (actor.aliases + Curated(actor.source));
  }

  /** A pattern names an entry exactly when it is the padded key, of three characters or more, of
      one of its names. */
  lemma NamedExactlyWhen(a: Alphabet, actor: Actor, pattern: string)
    ensures Named(a, Extended(actor), pattern) <==>
      exists name :: HasName(actor, name) && |NormalizeAlias(a, name)| >= 3
        && pattern == Padded(NormalizeAlias(a, name))
  {
    NamesCarry(a, AllNames(Extended(actor)), pattern);
    forall name ensures name in AllNames(Extended(actor)) <==> HasName(actor, name) { NamesAre(actor, name); }
  }

  /** The short form is tied to its entry. */
  lemma CuratedExactlyWhen(a: Alphabet, c: Catalog, owner: nat, pattern: string)
    ensures IsCurated(a, c, owner, pattern) <==>
      owner < |c.actors| && c.actors[owner].source == "os:Q22686" && pattern == Padded(NormalizeAlias(a, "Trump"))
  {
    if owner < |c.actors| && c.actors[owner].source == "os:Q22686" {
      assert Curated(c.actors[owner].source)[0] == "Trump";
    }
  }

  lemma NamesCarry(a: Alphabet, names: seq<string>, pattern: string)
    ensures CarriesOne(Keys(a, names), |Keys(a, names)|, pattern) <==>
      exists name :: name in names && |NormalizeAlias(a, name)| >= 3 && pattern == Padded(NormalizeAlias(a, name))
  {
    var keys := Keys(a, names);
    if CarriesOne(keys, |keys|, pattern) {
      var i :| 0 <= i < |keys| && Carries(keys[i], pattern);
      assert names[i] in names;
    }
    if name :| name in names && |NormalizeAlias(a, name)| >= 3 && pattern == Padded(NormalizeAlias(a, name)) {
      var i :| 0 <= i < |names| && names[i] == name;
      assert Carries(keys[i], pattern);
    }
  }

  function AddKey(owners: map<string, set<nat>>, key: string, index: nat): map<string, set<nat>> {
    if |key| < SHORTEST_KEY then owners else owners[Padded(key) := OwnersOf(owners, Padded(key)) + {index}]
  }

  lemma AddKeyAdds(owners: map<string, set<nat>>, key: string, index: nat, p: string)
    ensures OwnersOf(AddKey(owners, key, index), p) == OwnersOf(owners, p) + if Carries(key, p) then {index} else {}
  {
  }

  /** `more` is `owners` with `index` added for the first `n` keys. */
  ghost predicate Adds(keys: seq<string>, n: nat, index: nat, owners: map<string, set<nat>>,
      more: map<string, set<nat>>)
    requires n <= |keys|
  {
    && (forall p :: p in more ==> more[p] != {})
    && (forall p {:trigger OwnersOf(more, p)} :: OwnersOf(more, p) == OwnersOf(owners, p) + if CarriesOne(keys, n, p)
       then {index} else {})
  }

  lemma CarriesNext(keys: seq<string>, n: nat, p: string)
    requires n < |keys|
    ensures CarriesOne(keys, n + 1, p) <==> CarriesOne(keys, n, p) || Carries(keys[n], p)
  {
  }

  lemma AddsNext(keys: seq<string>, n: nat, index: nat, owners: map<string, set<nat>>, more: map<string, set<nat>>)
    requires n < |keys| && Adds(keys, n, index, owners, more)
    ensures Adds(keys, n + 1, index, owners, AddKey(more, keys[n], index))
  {
    var next := AddKey(more, keys[n], index);
    forall p ensures OwnersOf(next, p) == OwnersOf(owners, p) + if CarriesOne(keys, n + 1, p) then {index} else {} {
      AddKeyAdds(more, keys[n], index, p);
      CarriesNext(keys, n, p);
    }
  }

  /** Adds the keys of one actor. */
  method AddKeys(keys: seq<string>, index: nat, owners: map<string, set<nat>>) returns (more: map<string, set<nat>>)
    requires forall p :: p in owners ==> owners[p] != {}
    ensures Adds(keys, |keys|, index, owners, more)
  {
    more := owners;
    for k := 0 to |keys|
      invariant Adds(keys, k, index, owners, more)
    {
      AddsNext(keys, k, index, owners, more);
      more := AddKey(more, keys[k], index);
    }
  }

  /** `owners` covers the first `n` actors. */
  ghost predicate IndexesFirst(a: Alphabet, actors: seq<Actor>, n: nat, owners: map<string, set<nat>>)
    requires n <= |actors|
  {
    && (forall p, i: nat {:trigger i in OwnersOf(owners, p)} :: i in OwnersOf(owners, p) <==>
       i < n && Named(a, actors[i], p))
    && (forall p :: p in owners ==> owners[p] != {})
  }

  lemma IndexesNext(a: Alphabet, actors: seq<Actor>, n: nat, owners: map<string, set<nat>>, more: map<string, set<nat>>)
    requires n < |actors| && IndexesFirst(a, actors, n, owners)
    requires Adds(Keys(a, AllNames(actors[n])), |Keys(a, AllNames(actors[n]))|, n, owners, more)
    ensures IndexesFirst(a, actors, n + 1, more)
  {
    forall p, i: nat ensures i in OwnersOf(more, p) <==> i < n + 1 && Named(a, actors[i], p) {
      var added := OwnersOf(more, p);
      assert i in OwnersOf(owners, p) <==> i < n && Named(a, actors[i], p);
      assert added == OwnersOf(owners, p) + if Named(a, actors[n], p) then {n} else {};
      assert i != n ==> (i in added <==> i in OwnersOf(owners, p));
    }
  }

  method NewCatalog(a: Alphabet, actors: seq<Actor>) returns (c: Catalog)
    ensures Indexes(a, c)
    ensures |c.actors| == |actors| && forall i :: 0 <= i < |actors| ==> c.actors[i] == Extended(actors[i])
  {
    var all: seq<Actor> := [];
    for i := 0 to |actors|
      invariant |all| == i && forall j :: 0 <= j < i ==> all[j] == Extended(actors[j])
    {
      all := all + [Extended(actors[i])];
    }
    var owners: map<string, set<nat>> := map[];
    for index := 0 to |all|
      invariant IndexesFirst(a, all, index, owners)
    {
      var more := AddKeys(Keys(a, AllNames(all[index])), index, owners);
      IndexesNext(a, all, index, owners, more);
      owners := more;
    }
    c := Catalog(all, owners);
  }

  lemma KeyIsWords(a: Alphabet, name: string, key: string, pattern: string)
    requires Unicode(a) && key == NormalizeAlias(a, name) && Carries(key, pattern)
    ensures var ws := Words(Folding(a), pattern); ws != [] && Wordy(Folding(a), ws) && pattern == Pad(ws)
  {
    AliasIsWords(a, name);
    var ws := Words(Folding(a), Stripped(a, name));
    TokensWordy(Folding(a), Stripped(a, name));
    assert ws != [];
    PadIsJoin(ws);
    PaddedWords(Folding(a), ws);
  }

  /** A key among the keys of names that carries the pattern is a padded list of words. */
  lemma CarriedIsWords(a: Alphabet, names: seq<string>, pattern: string)
    requires Unicode(a) && CarriesOne(Keys(a, names), |Keys(a, names)|, pattern)
    ensures var ws := Words(Folding(a), pattern); ws != [] && Wordy(Folding(a), ws) && pattern == Pad(ws)
  {
    var keys := Keys(a, names);
    var n :| 0 <= n < |keys| && Carries(keys[n], pattern);
    KeyIsWords(a, names[n], keys[n], pattern);
  }

  /** Every owned pattern is a padded list of words. */
  lemma OwnedIsWords(a: Alphabet, c: Catalog, pattern: string)
    requires Unicode(a) && Indexes(a, c) && OwnersOf(c.owners, pattern) != {}
    ensures var key := Words(Folding(a), pattern); key != [] && Wordy(Folding(a), key) && pattern == Pad(key)
  {
    var i: nat :| i in OwnersOf(c.owners, pattern);
    CarriedIsWords(a, AllNames(c.actors[i]), pattern);
  }

  // ---------------------------------------------------------------- searching

  /** Every place of every pattern, overlapping or not. */
  method FindOverlapping(patterns: set<string>, text: string) returns (matches: seq<Match>)
    ensures forall x :: x in matches <==>
            x.pattern in patterns && Occurs(x.pattern, text, x.start) && x.end == x.start + |x.pattern|
  {
    matches := [];
    var rest := patterns;
    while rest != {}
      invariant rest <= patterns
      invariant forall x :: x in matches <==>
                x.pattern in patterns - rest && Occurs(x.pattern, text, x.start) && x.end == x.start + |x.pattern|
      decreases |rest|
    {
      var pattern :| pattern in rest;
      ghost var earlier := matches;
      for p := 0 to |text| + 1
        invariant forall x :: x in matches <==>
                  x in earlier || (x.pattern == pattern && x.start < p && Occurs(pattern, text, x.start)
                  && x.end == x.start + |pattern|)
      {
        if Occurs(pattern, text, p) { matches := matches + [Match(pattern, p, p + |pattern|)]; }
      }
      rest := rest - {pattern};
    }
  }

  predicate Sole(c: Catalog, pattern: string, owner: nat) { OwnersOf(c.owners, pattern) == {owner} }

  predicate IsCurated(a: Alphabet, c: Catalog, owner: nat, pattern: string) {
    owner < |c.actors| &&
    exists i :: 0 <= i < |Curated(c.actors[owner].source)| &&
      Padded(NormalizeAlias(a, Curated(c.actors[owner].source)[i])) == pattern
  }

  /** A strictly longer match of somebody else covers `x`. */
  predicate Covers(c: Catalog, y: Match, x: Match, owner: nat) {
    && y.start <= x.start && x.end <= y.end && (y.start < x.start || x.end < y.end)
    && |OwnersOf(c.owners, y.pattern)| == 1 && owner !in OwnersOf(c.owners, y.pattern)
  }

  predicate Covered(c: Catalog, matches: seq<Match>, x: Match, owner: nat) {
    exists i :: 0 <= i < |matches| && Covers(c, matches[i], x, owner)
  }

  predicate Reported(a: Alphabet, c: Catalog, matches: seq<Match>, x: Match, owner: nat) {
    Sole(c, x.pattern, owner) && !(IsCurated(a, c, owner, x.pattern) && Covered(c, matches, x, owner))
  }

  // ------------------------------------------------- what it means, in words

  ghost predicate Within(ws: seq<string>, key: seq<string>, k: nat, longer: seq<string>, j: nat) {
    j <= k && k + |key| <= j + |longer| && (j < k || k + |key| < j + |longer|)
  }

  /** The key belongs to one actor, and not to `owner`. */
  ghost predicate OwnedByOther(c: Catalog, key: seq<string>, owner: nat) {
    |OwnersOf(c.owners, Pad(key))| == 1 && owner !in OwnersOf(c.owners, Pad(key))
  }

  ghost predicate InsideLonger(c: Catalog, ws: seq<string>, key: seq<string>, k: nat, owner: nat) {
    exists longer, j :: HasAt(ws, longer, j) && Within(ws, key, k, longer, j) && OwnedByOther(c, longer, owner)
  }

  /** A curated short form inside a longer name that belongs to somebody else alone. */
  ghost predicate Overshadowed(a: Alphabet, c: Catalog, ws: seq<string>, key: seq<string>, k: nat, owner: nat) {
    IsCurated(a, c, owner, Pad(key)) && InsideLonger(c, ws, key, k, owner)
  }

  /** The mention of a stretch of the field. */
  function Quoted(text: string, field: nat, start: nat, end: nat): Mention
    requires start <= end <= |text|
  {
    Mention(field, start, end, Cut(text, start, end))
  }

  ghost predicate Quotes(text: string, field: nat, start: nat, end: nat, mention: Mention) {
    start <= end <= |text| && mention == Quoted(text, field, start, end)
  }

  /** The mention of `n` words of a field from word `k` on. */
  ghost predicate MentionAt(a: Alphabet, text: string, field: nat, k: nat, n: nat, mention: Mention) {
    var ts := Tokens(Folding(a), text);
    0 < n && k + n <= |ts| && Quotes(text, field, ts[k].start, ts[k + n - 1].End(), mention)
  }

  /** The field names `owner` there: by a key that is its alone, and not overshadowed. */
  ghost predicate Emits(a: Alphabet, c: Catalog, text: string, field: nat, owner: nat, mention: Mention) {
    var ws := Words(Folding(a), text);
    exists key, k :: HasAt(ws, key, k) && Sole(c, Pad(key), owner) &&
      !Overshadowed(a, c, ws, key, k, owner) && MentionAt(a, text, field, k, |key|, mention)
  }

  lemma AtStep(ws: seq<string>, k: nat)
    requires k < |ws|
    ensures At(ws, k + 1) == At(ws, k) + |ws[k]| + 1
  {
    assert ws[..k + 1][..k] == ws[..k];
  }

  /** Word places grow with the words. */
  lemma {:induction false} AtGrows(ws: seq<string>, i: nat, j: nat)
    requires i < j <= |ws|
    ensures At(ws, i) < At(ws, j)
    decreases j
  {
    AtStep(ws, j - 1);
    if i < j - 1 { AtGrows(ws, i, j - 1); }
  }

  lemma WordyBlankless(l: Letters, ws: seq<string>)
    requires Lawful(l) && Wordy(l, ws)
    ensures Blankless(ws)
  {
  }

  /** What a search result is: the key's words in a row. */
  ghost predicate Stands(a: Alphabet, text: string, x: Match, key: seq<string>, k: nat) {
    var ws := Words(Folding(a), text);
    && key != [] && HasAt(ws, key, k) && x.pattern == Pad(key)
    && x.start == At(ws, k) && x.end == At(ws, k + |key|) + 1
  }

  /** A hit of an owned pattern is a run of the key's words, and so the other way round. */
  lemma HitStands(a: Alphabet, c: Catalog, text: string, x: Match) returns (key: seq<string>, k: nat)
    requires Unicode(a) && Indexes(a, c) && OwnersOf(c.owners, x.pattern) != {}
    requires Occurs(x.pattern, Pad(Words(Folding(a), text)), x.start) && x.end == x.start + |x.pattern|
    ensures Stands(a, text, x, key, k)
  {
    var ws := Words(Folding(a), text);
    OwnedIsWords(a, c, x.pattern);
    key := Words(Folding(a), x.pattern);
    TokensWordy(Folding(a), text);
    WordyBlankless(Folding(a), ws);
    WordyBlankless(Folding(a), key);
    OccursIsWords(key, ws, x.start);
    k :| 0 <= k <= |ws| && HasAt(ws, key, k) && x.start == At(ws, k);
    WordsOccur(key, ws, k);
  }

  lemma StandsHit(a: Alphabet, text: string, key: seq<string>, k: nat) returns (x: Match)
    requires key != [] && HasAt(Words(Folding(a), text), key, k)
    ensures Stands(a, text, x, key, k)
    ensures Occurs(x.pattern, Pad(Words(Folding(a), text)), x.start) && x.end == x.start + |x.pattern|
  {
    var ws := Words(Folding(a), text);
    WordsOccur(key, ws, k);
    x := Match(Pad(key), At(ws, k), At(ws, k + |key|) + 1);
  }

  /** One hit covers another exactly when its words do. */
  lemma CoversIsWithin(a: Alphabet, text: string, x: Match, key: seq<string>, k: nat, y: Match,
      longer: seq<string>, j: nat)
    requires Stands(a, text, x, key, k) && Stands(a, text, y, longer, j)
    ensures y.start <= x.start && x.end <= y.end && (y.start < x.start || x.end < y.end) <==>
            Within(Words(Folding(a), text), key, k, longer, j)
  {
    var ws := Words(Folding(a), text);
    if j < k { AtGrows(ws, j, k); }
    if k < j { AtGrows(ws, k, j); }
    if k + |key| < j + |longer| { AtGrows(ws, k + |key|, j + |longer|); }
    if j + |longer| < k + |key| { AtGrows(ws, j + |longer|, k + |key|); }
  }

  /** `matches` are all the places of the owned patterns in the normalized field. */
  ghost predicate AllHits(a: Alphabet, c: Catalog, text: string, matches: seq<Match>) {
    forall x :: x in matches <==>
      x.pattern in c.owners && Occurs(x.pattern, Pad(Words(Folding(a), text)), x.start)
      && x.end == x.start + |x.pattern|
  }

  lemma OwnedNotBlank(a: Alphabet, c: Catalog, key: seq<string>)
    requires Indexes(a, c) && OwnersOf(c.owners, Pad(key)) != {}
    ensures key != []
  {
    var i: nat :| i in OwnersOf(c.owners, Pad(key));
    assert Named(a, c.actors[i], Pad(key));
  }

  lemma CoveredIsInside(a: Alphabet, c: Catalog, text: string, matches: seq<Match>, x: Match,
      key: seq<string>, k: nat, owner: nat)
    requires Unicode(a) && Indexes(a, c) && AllHits(a, c, text, matches) && Stands(a, text, x, key, k)
    requires Covered(c, matches, x, owner)
    ensures InsideLonger(c, Words(Folding(a), text), key, k, owner)
  {
    var i :| 0 <= i < |matches| && Covers(c, matches[i], x, owner);
    var y := matches[i];
    assert y in matches;
    var longer, j := HitStands(a, c, text, y);
    CoversIsWithin(a, text, x, key, k, y, longer, j);
    assert HasAt(Words(Folding(a), text), longer, j);
  }

  lemma InsideIsCovered(a: Alphabet, c: Catalog, text: string, matches: seq<Match>, x: Match,
      key: seq<string>, k: nat, owner: nat)
    requires Unicode(a) && Indexes(a, c) && AllHits(a, c, text, matches) && Stands(a, text, x, key, k)
    requires InsideLonger(c, Words(Folding(a), text), key, k, owner)
    ensures Covered(c, matches, x, owner)
  {
    var ws := Words(Folding(a), text);
    var longer, j :| HasAt(ws, longer, j) && Within(ws, key, k, longer, j) && OwnedByOther(c, longer, owner);
    OwnedNotBlank(a, c, longer);
    var y := StandsHit(a, text, longer, j);
    CoversIsWithin(a, text, x, key, k, y, longer, j);
    assert y in matches;
    var i :| 0 <= i < |matches| && matches[i] == y;
    assert Covers(c, matches[i], x, owner);
  }

  /** A hit is reported exactly when its words are not overshadowed. */
  lemma ReportedExactlyWhen(a: Alphabet, c: Catalog, text: string, matches: seq<Match>, x: Match,
      key: seq<string>, k: nat, owner: nat)
    requires Unicode(a) && Indexes(a, c) && AllHits(a, c, text, matches) && Stands(a, text, x, key, k)
    ensures Reported(a, c, matches, x, owner) <==>
            Sole(c, Pad(key), owner) && !Overshadowed(a, c, Words(Folding(a), text), key, k, owner)
  {
    if Covered(c, matches, x, owner) { CoveredIsInside(a, c, text, matches, x, key, k, owner); }
    if InsideLonger(c, Words(Folding(a), text), key, k, owner) {
      InsideIsCovered(a, c, text, matches, x, key, k, owner);
    }
  }

  // ---------------------------------------------------------------- mentions

  /** The mention that a hit stands for, read through the places of its letters. */
  ghost predicate ReadsOff(text: string, field: nat, spots: seq<Spot>, x: Match, mention: Mention) {
    && x.start + 1 < |spots| && 2 <= x.end <= |spots| + 1
    && Quotes(text, field, spots[x.start + 1].start, spots[x.end - 2].end, mention)
  }

  lemma WordPlaces(a: Alphabet, text: string, out: string, spots: seq<Spot>, k: nat)
    requires Unicode(a) && Closed(out, spots, Tokens(Folding(a), text)) && k < |Words(Folding(a), text)|
    ensures PlacesAt(spots, Tokens(Folding(a), text)[k], At(Words(Folding(a), text), k),
            At(Words(Folding(a), text), k + 1))
  {
    var ts := Tokens(Folding(a), text);
    TokensWordy(Folding(a), text);
    assert forall i :: 0 <= i < |ts| ==> WordsIn(ts)[i] == ts[i].word;
    PlacesOf(out, spots, ts, k);
  }

  lemma EndPlaces(spots: seq<Spot>, first: Token, last: Token, p: nat, p': nat, q': nat, q: nat)
    requires PlacesAt(spots, first, p, p') && PlacesAt(spots, last, q', q)
    ensures p + 1 < |spots| && 1 <= q <= |spots| && spots[p + 1].start == first.start && spots[q - 1].end == last.End()
  {
  }

  /** A hit's places are those of its first and last word. */
  lemma HitPlaces(a: Alphabet, text: string, out: string, spots: seq<Spot>, x: Match, key: seq<string>, k: nat)
    requires Unicode(a) && Closed(out, spots, Tokens(Folding(a), text)) && Stands(a, text, x, key, k)
    ensures x.start + 1 < |spots| && 2 <= x.end <= |spots| + 1
    ensures spots[x.start + 1].start == Tokens(Folding(a), text)[k].start
    ensures spots[x.end - 2].end == Tokens(Folding(a), text)[k + |key| - 1].End()
    ensures spots[x.start + 1].start < spots[x.end - 2].end <= |text|
  {
    var last, ws, ts := k + |key| - 1, Words(Folding(a), text), Tokens(Folding(a), text);
    WordPlaces(a, text, out, spots, k);
    WordPlaces(a, text, out, spots, last);
    EndPlaces(spots, ts[k], ts[last], At(ws, k), At(ws, k + 1), At(ws, last), At(ws, last + 1));
    TokenEnds(Folding(a), text, last);
    TokenEnds(Folding(a), text, k);
    TokensOrdered(Folding(a), text, k, last);
  }

  lemma QuotedWords(a: Alphabet, text: string, field: nat, key: seq<string>, k: nat, mention: Mention)
    requires HasAt(Words(Folding(a), text), key, k) && MentionAt(a, text, field, k, |key|, mention)
    ensures Words(Folding(a), mention.original) == key
  {
    SliceWords(Folding(a), text, k, k + |key| - 1);
    var got := Words(Folding(a), mention.original);
    assert |got| == |key| && forall i :: 0 <= i < |key| ==> got[i] == key[i];
  }

  lemma QuotedEnds(a: Alphabet, text: string, field: nat, k: nat, n: nat, mention: Mention)
    requires MentionAt(a, text, field, k, n, mention)
    ensures mention.start < mention.end && mention.original != []
    ensures a.alnum(mention.original[0]) && a.alnum(mention.original[|mention.original| - 1])
  {
    SliceWords(Folding(a), text, k, k + n - 1);
    TokenEnds(Folding(a), text, k);
    TokenEnds(Folding(a), text, k + n - 1);
  }

  /** The words of a reported place are the words of the key; the recorded key is the matched
      one exactly when the place has no ending that normalization strips. */
  lemma MentionHasKey(a: Alphabet, text: string, field: nat, key: seq<string>, k: nat, mention: Mention)
    requires Unicode(a) && HasAt(Words(Folding(a), text), key, k) && MentionAt(a, text, field, k, |key|, mention)
    ensures mention.start < mention.end
    ensures Words(Folding(a), mention.original) == key
    ensures NormalizeAlias(a, mention.original) == Join(key) <==> !Strippable(a, mention.original)
  {
    QuotedWords(a, text, field, key, k, mention);
    QuotedEnds(a, text, field, k, |key|, mention);
    PlainKeyExactlyWhen(a, mention.original);
  }

  lemma {:induction false} TokenEnds(l: Letters, text: string, k: nat)
    requires k < |Tokens(l, text)|
    ensures var t := Tokens(l, text)[k];
            t.start < t.End() <= |text| && l.keep(text[t.start]) && l.keep(text[t.End() - 1])
    decreases |text|
  {
    var rest, c := text[..|text| - 1], text[|text| - 1];
    var before := Tokens(l, rest);
    if k < |before| {
      TokenEnds(l, rest, k);
      NextKeeps(l, before, Open(l, rest), |rest|, c, k);
    }
  }

  // --------------------------------------------------------------- the result

  predicate Holds(found: map<nat, Found>, owner: nat, mention: Mention) {
    owner in found && mention in found[owner].mentions
  }

  ghost predicate NoRepeats<T>(s: seq<T>) { forall i, j :: 0 <= i < j < |s| ==> s[i] != s[j] }

  /** Mentions and spellings without repeats, and the spellings those of the mentions. */
  ghost predicate Tidy(f: Found) {
    && f.mentions != [] && NoRepeats(f.mentions) && NoRepeats(f.spellings)
    && (forall m :: m in f.mentions ==> m.original in f.spellings)
    && (forall s :: s in f.spellings ==> exists m :: m in f.mentions && m.original == s)
  }

  ghost predicate AllTidy(found: map<nat, Found>) { forall owner :: owner in found ==> Tidy(found[owner]) }

  function Once<T(==)>(s: seq<T>, x: T): seq<T> { if x in s then s else s + [x] }

  function WithMention(f: Found, mention: Mention): Found {
    Found(Once(f.spellings, mention.original), Once(f.mentions, mention))
  }

  lemma WithMentionTidy(f: Found, mention: Mention)
    requires Tidy(f) || f == Found([], [])
    ensures Tidy(WithMention(f, mention))
    ensures forall m :: m in WithMention(f, mention).mentions <==> m in f.mentions || m == mention
  {
    var g := WithMention(f, mention);
    forall s | s in g.spellings ensures exists m :: m in g.mentions && m.original == s {
      if s in f.spellings {
        var m :| m in f.mentions && m.original == s;
        assert m in g.mentions;
      } else {
        assert mention in g.mentions;
      }
    }
  }

  function Record(found: map<nat, Found>, owner: nat, mention: Mention): map<nat, Found> {
    found[owner := WithMention(if owner in found then found[owner] else Found([], []), mention)]
  }

  lemma RecordHolds(found: map<nat, Found>, owner: nat, mention: Mention)
    requires AllTidy(found)
    ensures AllTidy(Record(found, owner, mention))
    ensures forall o, m :: Holds(Record(found, owner, mention), o, m) <==>
            Holds(found, o, m) || (o == owner && m == mention)
  {
    WithMentionTidy(if owner in found then found[owner] else Found([], []), mention);
  }

  lemma OneReporter(a: Alphabet, c: Catalog, matches: seq<Match>, x: Match, owner: nat, o: nat)
    requires Sole(c, x.pattern, owner) && Reported(a, c, matches, x, o)
    ensures o == owner
  {
    assert o in OwnersOf(c.owners, x.pattern);
  }

  /** The actor that a hit is reported for, if any. */
  method Reporter(a: Alphabet, c: Catalog, matches: seq<Match>, x: Match) returns (reported: bool, owner: nat)
    requires x.pattern in c.owners
    ensures forall o :: Reported(a, c, matches, x, o) <==> reported && o == owner
  {
    owner := 0;
    if |c.owners[x.pattern]| != 1 { return false, 0; }
    owner :| owner in c.owners[x.pattern];
    SingleOwner(c.owners[x.pattern], owner);
    forall o | Reported(a, c, matches, x, o) ensures o == owner { OneReporter(a, c, matches, x, owner, o); }
    reported := !(IsCurated(a, c, owner, x.pattern) && Covered(c, matches, x, owner));
  }

  /** Handles one hit. */
  method TakeHit(a: Alphabet, c: Catalog, text: string, field: nat, spots: seq<Spot>, matches: seq<Match>,
      x: Match, found: map<nat, Found>)
    returns (more: map<nat, Found>)
    requires AllTidy(found) && x.pattern in c.owners
    requires x.start + 1 < |spots| && 2 <= x.end <= |spots| + 1
    requires spots[x.start + 1].start < spots[x.end - 2].end <= |text|
    ensures AllTidy(more)
    ensures forall o, m :: Holds(more, o, m) <==>
            Holds(found, o, m) || (Reported(a, c, matches, x, o) && ReadsOff(text, field, spots, x, m))
  {
    var reported, owner := Reporter(a, c, matches, x);
    if !reported { return found; }
    var mention := Quoted(text, field, spots[x.start + 1].start, spots[x.end - 2].end);
    RecordHolds(found, owner, mention);
    more := Record(found, owner, mention);
    assert forall m :: ReadsOff(text, field, spots, x, m) <==> m == mention;
  }

  lemma SingleOwner(s: set<nat>, x: nat)
    requires |s| == 1 && x in s
    ensures s == {x}
  {
    assert |s - {x}| == 0;
  }

  /** `more` is `found` with what the first `n` hits give. */
  ghost predicate Gathered(a: Alphabet, c: Catalog, text: string, field: nat, spots: seq<Spot>,
      matches: seq<Match>, n: nat, found: map<nat, Found>, more: map<nat, Found>)
    requires n <= |matches|
  {
    forall o, m :: Holds(more, o, m) <==> Holds(found, o, m) || GivenBy(a, c, text, field, spots, matches, n, o, m)
  }

  ghost predicate GivenBy(a: Alphabet, c: Catalog, text: string, field: nat, spots: seq<Spot>,
      matches: seq<Match>, n: nat, owner: nat, mention: Mention)
    requires n <= |matches|
  {
    exists j :: 0 <= j < n && Gives(a, c, text, field, spots, matches, j, owner, mention)
  }

  lemma GivenNext(a: Alphabet, c: Catalog, text: string, field: nat, spots: seq<Spot>, matches: seq<Match>,
      n: nat, owner: nat, mention: Mention)
    requires n < |matches|
    ensures GivenBy(a, c, text, field, spots, matches, n + 1, owner, mention) <==>
            GivenBy(a, c, text, field, spots, matches, n, owner, mention)
              || Gives(a, c, text, field, spots, matches, n, owner, mention)
  {
  }

  lemma GatheredNext(a: Alphabet, c: Catalog, text: string, field: nat, spots: seq<Spot>, matches: seq<Match>,
      n: nat, found: map<nat, Found>, more: map<nat, Found>, next: map<nat, Found>)
    requires n < |matches| && Gathered(a, c, text, field, spots, matches, n, found, more)
    requires forall o, m :: Holds(next, o, m) <==>
             Holds(more, o, m) || Gives(a, c, text, field, spots, matches, n, o, m)
    ensures Gathered(a, c, text, field, spots, matches, n + 1, found, next)
  {
    forall o: nat, m: Mention ensures Holds(next, o, m) <==>
      Holds(found, o, m) || GivenBy(a, c, text, field, spots, matches, n + 1, o, m) {
      GivenNext(a, c, text, field, spots, matches, n, o, m);
    }
  }

  /** Handles one field: what it adds is exactly what the field names. */
  method TakeField(a: Alphabet, c: Catalog, text: string, field: nat,
      found: map<nat, Found>) returns (more: map<nat, Found>)
    requires Unicode(a) && Indexes(a, c) && AllTidy(found)
    ensures AllTidy(more)
    ensures forall o, m :: Holds(more, o, m) <==> Holds(found, o, m) || Emits(a, c, text, field, o, m)
  {
    var normalized, spots := NormalizedOffsets(Folding(a), text);
    ClosedIsPadded(normalized, spots, Tokens(Folding(a), text));
    var matches := FindOverlapping(c.owners.Keys, normalized);
    more := TakeHits(a, c, text, field, normalized, spots, matches, found);
    forall o: nat, m: Mention ensures GivenBy(a, c, text, field, spots, matches, |matches|, o, m) <==>
      Emits(a, c, text, field, o, m) {
      GivesIsEmits(a, c, text, field, normalized, spots, matches, o, m);
    }
  }

  method TakeHits(a: Alphabet, c: Catalog, text: string, field: nat, ghost normalized: string,
      spots: seq<Spot>, matches: seq<Match>, found: map<nat, Found>)
    returns (more: map<nat, Found>)
    requires Unicode(a) && Indexes(a, c) && AllTidy(found) && AllHits(a, c, text, matches)
             && Closed(normalized, spots, Tokens(Folding(a), text))
    ensures AllTidy(more) && Gathered(a, c, text, field, spots, matches, |matches|, found, more)
  {
    more := found;
    for i := 0 to |matches|
      invariant AllTidy(more) && Gathered(a, c, text, field, spots, matches, i, found, more)
    {
      HitReadable(a, c, text, normalized, spots, matches, matches[i]);
      var next := TakeHit(a, c, text, field, spots, matches, matches[i], more);
      GatheredNext(a, c, text, field, spots, matches, i, found, more, next);
      more := next;
    }
  }

  ghost predicate Gives(a: Alphabet, c: Catalog, text: string, field: nat, spots: seq<Spot>,
      matches: seq<Match>, j: nat, owner: nat, mention: Mention)
    requires j < |matches|
  {
    Reported(a, c, matches, matches[j], owner) && ReadsOff(text, field, spots, matches[j], mention)
  }

  lemma HitReadable(a: Alphabet, c: Catalog, text: string, out: string, spots: seq<Spot>, matches: seq<Match>, x: Match)
    requires Unicode(a) && Indexes(a, c) && AllHits(a, c, text, matches)
             && Closed(out, spots, Tokens(Folding(a), text)) && x in matches
    ensures x.pattern in c.owners && x.start + 1 < |spots| && 2 <= x.end <= |spots| + 1
    ensures spots[x.start + 1].start < spots[x.end - 2].end <= |text|
  {
    var key, k := HitStands(a, c, text, x);
    HitPlaces(a, text, out, spots, x, key, k);
  }

  lemma ReadIsAt(a: Alphabet, text: string, field: nat, out: string, spots: seq<Spot>, x: Match,
      key: seq<string>, k: nat, mention: Mention)
    requires Unicode(a) && Closed(out, spots, Tokens(Folding(a), text)) && Stands(a, text, x, key, k)
    ensures ReadsOff(text, field, spots, x, mention) <==> MentionAt(a, text, field, k, |key|, mention)
  {
    HitPlaces(a, text, out, spots, x, key, k);
  }

  lemma GivesIsEmits(a: Alphabet, c: Catalog, text: string, field: nat, out: string, spots: seq<Spot>,
      matches: seq<Match>, owner: nat, mention: Mention)
    requires Unicode(a) && Indexes(a, c) && AllHits(a, c, text, matches) && Closed(out, spots, Tokens(Folding(a), text))
    ensures GivenBy(a, c, text, field, spots, matches, |matches|, owner, mention) <==>
            Emits(a, c, text, field, owner, mention)
  {
    if j :| 0 <= j < |matches| && Gives(a, c, text, field, spots, matches, j, owner, mention) {
      var key, k := HitStands(a, c, text, matches[j]);
      ReportedExactlyWhen(a, c, text, matches, matches[j], key, k, owner);
      ReadIsAt(a, text, field, out, spots, matches[j], key, k, mention);
      assert HasAt(Words(Folding(a), text), key, k);
    }
    if Emits(a, c, text, field, owner, mention) {
      EmitsGives(a, c, text, field, out, spots, matches, owner, mention);
    }
  }

  lemma EmitsGives(a: Alphabet, c: Catalog, text: string, field: nat, out: string, spots: seq<Spot>,
      matches: seq<Match>, owner: nat, mention: Mention)
    requires Unicode(a) && Indexes(a, c) && AllHits(a, c, text, matches) && Closed(out, spots, Tokens(Folding(a), text))
    requires Emits(a, c, text, field, owner, mention)
    ensures GivenBy(a, c, text, field, spots, matches, |matches|, owner, mention)
  {
    var ws := Words(Folding(a), text);
    var key, k :| HasAt(ws, key, k) && Sole(c, Pad(key), owner) && !Overshadowed(a, c, ws, key, k, owner)
      && MentionAt(a, text, field, k, |key|, mention);
    var x := StandsHit(a, text, key, k);
    assert x in matches;
    var j :| 0 <= j < |matches| && matches[j] == x;
    ReportedExactlyWhen(a, c, text, matches, x, key, k, owner);
    ReadIsAt(a, text, field, out, spots, x, key, k, mention);
    assert Gives(a, c, text, field, spots, matches, j, owner, mention);
  }

  ghost predicate EmittedBy(a: Alphabet, c: Catalog, texts: seq<string>, n: nat, owner: nat, mention: Mention)
    requires n <= |texts|
  {
    exists f :: 0 <= f < n && Emits(a, c, texts[f], f, owner, mention)
  }

  lemma EmittedNext(a: Alphabet, c: Catalog, texts: seq<string>, n: nat, owner: nat, mention: Mention)
    requires n < |texts|
    ensures EmittedBy(a, c, texts, n + 1, owner, mention) <==>
            EmittedBy(a, c, texts, n, owner, mention) || Emits(a, c, texts[n], n, owner, mention)
  {
  }

  /** The actors of an article: exactly those its fields name, with exactly the mentions that
      name them. */
  method Fields(a: Alphabet, c: Catalog, texts: seq<string>) returns (found: map<nat, Found>)
    requires Unicode(a) && Indexes(a, c)
    ensures AllTidy(found)
    ensures forall o, m :: Holds(found, o, m) <==> EmittedBy(a, c, texts, |texts|, o, m)
  {
    found := map[];
    for f := 0 to |texts|
      invariant AllTidy(found)
      invariant forall o, m :: Holds(found, o, m) <==> EmittedBy(a, c, texts, f, o, m)
    {
      var more := TakeField(a, c, texts[f], f, found);
      forall o: nat, m: Mention ensures Holds(more, o, m) <==> EmittedBy(a, c, texts, f + 1, o, m) {
        EmittedNext(a, c, texts, f, o, m);
      }
      found := more;
    }
  }
}
