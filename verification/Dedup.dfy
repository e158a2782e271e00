/** Deduplication of phase-2 headlines within a run, with replacement by a better source. */
module Dedup {
  datatype Article = Article(url: string, title: string, country: string, domain: string, published: string)

  datatype Seen = Seen(urlHash: string, titleNorm: string, domain: string, rank: int, published: string, id: string)

  datatype Origin = Origin(country: string, articles: nat)

  datatype Verdict = Keep | Drop | Replace(id: string)

  /** The parts of the judgement that are taken as given: the digest of a canonical URL, the
      edit-distance test on two normalized titles, and the rank of a domain. */
  datatype Rules = Rules(hash: string -> string, similar: (string, string) -> bool, rank: string -> int) {
    /** An article's id is made from its URL digest. */
    function Id(a: Article): string { hash(a.url) }

    function SeenOf(a: Article): Seen {
      Seen(hash(a.url), Norm(a.title), a.domain, rank(a.domain), a.published, Id(a))
    }
  }

  /** ASCII letters and digits of a title, in lower case. */
  function Norm(title: string): string {
    if title == "" then ""
    else
      var c := title[0];
      (if 'a' <= c <= 'z' || '0' <= c <= '9' then [c]
       else if 'A' <= c <= 'Z' then [(c as int - 'A' as int + 'a' as int) as char]
       else "") + Norm(title[1..])
  }

  predicate Earlier(a: string, b: string) {
    if b == "" then false
    else if a == "" then true
    else a[0] < b[0] || (a[0] == b[0] && Earlier(a[1..], b[1..]))
  }

  /** Titles are normalized character by character. */
  lemma {:induction false} NormJoins(s: string, t: string)
    ensures Norm(s + t) == Norm(s) + Norm(t)
  {
    if s == "" {
      assert s + t == t;
    } else {
      assert (s + t)[1..] == s[1..] + t;
      NormJoins(s[1..], t);
    }
  }

  /** Letters and digits stay, in lower case, and nothing else does. */
  lemma NormOfOne(c: char)
    ensures 'a' <= c <= 'z' || '0' <= c <= '9' ==> Norm([c]) == [c]
    ensures 'A' <= c <= 'Z' ==> |Norm([c])| == 1 && Norm([c])[0] as int - 'a' as int == c as int - 'A' as int
    ensures !('a' <= c <= 'z' || '0' <= c <= '9' || 'A' <= c <= 'Z') ==> Norm([c]) == ""
  {
    assert [c][1..] == "" && Norm("") == "";
  }

  /** At the first place where the texts part, the first one ends or has the smaller character. */
  predicate PartsAt(a: string, b: string, k: nat) {
    k <= |a| && k < |b| && (forall i :: 0 <= i < k ==> a[i] == b[i]) && (k == |a| || a[k] < b[k])
  }

  /** Dates are compared as texts, character by character, and a text comes before its
      continuations. */
  lemma {:induction false} EarlierExactlyWhen(a: string, b: string)
    ensures Earlier(a, b) <==> exists k: nat :: PartsAt(a, b, k)
  {
    if a == "" || b == "" {
      if b != "" { assert PartsAt(a, b, 0); }
    } else {
      EarlierExactlyWhen(a[1..], b[1..]);
      if a[0] == b[0] && Earlier(a[1..], b[1..]) {
        var k: nat :| PartsAt(a[1..], b[1..], k);
        forall i | 0 <= i < k + 1 ensures a[i] == b[i] { assert i > 0 ==> a[1..][i - 1] == b[1..][i - 1]; }
        assert PartsAt(a, b, k + 1);
      } else if a[0] < b[0] {
        assert PartsAt(a, b, 0);
      }
      if k: nat :| PartsAt(a, b, k) && k > 0 {
        forall i | 0 <= i < k - 1 ensures a[1..][i] == b[1..][i] { assert a[i + 1] == b[i + 1]; }
        assert PartsAt(a[1..], b[1..], k - 1);
      }
    }
  }

  /** Of two different dates exactly one is earlier. */
  lemma {:induction false} EarlierIsTotal(a: string, b: string)
    ensures Earlier(a, b) || a == b || Earlier(b, a)
    ensures !(Earlier(a, b) && Earlier(b, a)) && !Earlier(a, a)
  {
    if a != "" { EarlierIsTotal(a[1..], a[1..]); }
    if a != "" && b != "" {
      EarlierIsTotal(a[1..], b[1..]);
      assert a == [a[0]] + a[1..] && b == [b[0]] + b[1..];
    }
  }

  // ---------------------------------------------------------------- judging

  predicate Known(r: Rules, a: Article, item: Seen) {
    item.urlHash == r.hash(a.url) || item.titleNorm == Norm(a.title)
  }

  /** Another outlet's version of the same headline. */
  predicate Rival(r: Rules, a: Article, item: Seen) {
    item.domain != a.domain && item.titleNorm != "" && r.similar(Norm(a.title), item.titleNorm)
  }

  predicate Beats(r: Rules, a: Article, item: Seen) {
    || r.rank(a.domain) > item.rank
    || (r.rank(a.domain) == item.rank && Earlier(a.published, item.published) && a.published != "")
  }

  /** The id of the last rival, if there is one. */
  function LastRival(r: Rules, a: Article, seen: seq<Seen>): Verdict {
    if seen == [] then Keep
    else if Rival(r, a, seen[|seen| - 1]) then Replace(seen[|seen| - 1].id)
    else LastRival(r, a, seen[..|seen| - 1])
  }

  /** An unusable or known headline is dropped, and so is one that loses to any rival; a
      headline that beats every rival takes the place of the last one. */
  function Judgement(r: Rules, a: Article, seen: seq<Seen>): Verdict {
    if Norm(a.title) == "" || a.url == "" then Drop
    else if exists item :: item in seen && Known(r, a, item) then Drop
    else if exists item :: item in seen && Rival(r, a, item) && !Beats(r, a, item) then Drop
    else LastRival(r, a, seen)
  }

  method Judge(r: Rules, a: Article, seen: seq<Seen>) returns (v: Verdict)
    ensures v == Judgement(r, a, seen)
  {
    if Norm(a.title) == "" || a.url == "" { return Drop; }
    for i := 0 to |seen|
      invariant forall j :: 0 <= j < i ==> !Known(r, a, seen[j])
    {
      if Known(r, a, seen[i]) { return Drop; }
    }
    v := Keep;
    for i := 0 to |seen|
      invariant forall j :: 0 <= j < i && Rival(r, a, seen[j]) ==> Beats(r, a, seen[j])
      invariant v == LastRival(r, a, seen[..i])
    {
      var item := seen[i];
      assert seen[..i + 1][..i] == seen[..i];
      if item.domain == a.domain || item.titleNorm == "" { continue; }
      if !r.similar(Norm(a.title), item.titleNorm) { continue; }
      if Beats(r, a, item) {
        v := Replace(item.id);
      } else {
        return Drop;
      }
    }
    assert seen[..|seen|] == seen;
  }

  lemma {:induction false} LastRivalIsSeen(r: Rules, a: Article, seen: seq<Seen>)
    ensures LastRival(r, a, seen) != Drop
    ensures LastRival(r, a, seen).Replace? ==>
              exists item :: item in seen && Rival(r, a, item) && item.id == LastRival(r, a, seen).id
  {
    if seen != [] {
      var last := seen[|seen| - 1];
      assert last in seen;
      if !Rival(r, a, last) { LastRivalIsSeen(r, a, seen[..|seen| - 1]); }
    }
  }

  /** A headline is dropped exactly when it is unusable, repeats a URL or a title, or meets another
      outlet's version that ranks higher, or as high without being published later. */
  lemma DroppedExactlyWhen(r: Rules, a: Article, seen: seq<Seen>)
    ensures Judgement(r, a, seen) == Drop <==>
      || Norm(a.title) == "" || a.url == ""
      || (exists item :: item in seen && (item.urlHash == r.hash(a.url) || item.titleNorm == Norm(a.title)))
      || (exists item :: item in seen &&
            item.domain != a.domain && item.titleNorm != "" && r.similar(Norm(a.title), item.titleNorm) &&
            (item.rank > r.rank(a.domain) ||
             (item.rank == r.rank(a.domain) && (a.published == "" || !Earlier(a.published, item.published)))))
  {
    LastRivalIsSeen(r, a, seen);
  }

  /** A headline that is not dropped takes the place of the last other version. */
  lemma {:induction false} ReplacesTheLast(r: Rules, a: Article, seen: seq<Seen>, i: nat)
    requires Judgement(r, a, seen) != Drop && i < |seen|
    requires seen[i].domain != a.domain && seen[i].titleNorm != "" && r.similar(Norm(a.title), seen[i].titleNorm)
    requires forall j :: i < j < |seen| ==>
               seen[j].domain == a.domain || seen[j].titleNorm == "" || !r.similar(Norm(a.title), seen[j].titleNorm)
    ensures Judgement(r, a, seen) == Replace(seen[i].id)
  {
    LastRivalAt(r, a, seen, i);
  }

  lemma {:induction false} LastRivalAt(r: Rules, a: Article, seen: seq<Seen>, i: nat)
    requires i < |seen| && Rival(r, a, seen[i]) && forall j :: i < j < |seen| ==> !Rival(r, a, seen[j])
    ensures LastRival(r, a, seen) == Replace(seen[i].id)
    decreases |seen|
  {
    if i < |seen| - 1 { LastRivalAt(r, a, seen[..|seen| - 1], i); }
  }

  /** It is new exactly when there is none. */
  lemma KeptExactlyWhen(r: Rules, a: Article, seen: seq<Seen>)
    requires Judgement(r, a, seen) != Drop
    ensures Judgement(r, a, seen) == Keep <==>
      forall item :: item in seen ==>
        item.domain == a.domain || item.titleNorm == "" || !r.similar(Norm(a.title), item.titleNorm)
  {
    NoRivalKeeps(r, a, seen);
  }

  lemma {:induction false} NoRivalKeeps(r: Rules, a: Article, seen: seq<Seen>)
    ensures LastRival(r, a, seen) == Keep <==> forall item :: item in seen ==> !Rival(r, a, item)
  {
    if seen != [] {
      assert seen == seen[..|seen| - 1] + [seen[|seen| - 1]];
      NoRivalKeeps(r, a, seen[..|seen| - 1]);
    }
  }

  // ------------------------------------------------------- one run's articles

  /** The rows of a run by id, the headlines it must not repeat, and its country totals. */
  datatype Run = Run(rows: map<string, Article>, seen: seq<Seen>, origins: seq<Origin>)

  function Bump(origins: seq<Origin>, country: string, delta: int): (r: seq<Origin>)
    ensures |r| == |origins|
    ensures forall k :: 0 <= k < |r| ==> r[k].country == origins[k].country
  {
    if origins == [] then []
    else if origins[0].country == country then
      var n := origins[0].articles + delta;
      [origins[0].(articles := if n < 0 then 0 else n)] + origins[1..]
    else [origins[0]] + Bump(origins[1..], country, delta)
  }

  function Without(seen: seq<Seen>, id: string): seq<Seen> {
    if seen == [] then []
    else Without(seen[..|seen| - 1], id) + if seen[|seen| - 1].id == id then [] else [seen[|seen| - 1]]
  }

  function ApplyHit(r: Rules, s: Run, a: Article): Run {
    var id := r.Id(a);
    match Judgement(r, a, s.seen)
    case Drop => s
    case Keep =>
      Run(s.rows[id := a], s.seen + [r.SeenOf(a)], Bump(s.origins, a.country, 1))
    case Replace(lost) =>
      if lost !in s.rows then s
      else
        var origins := if s.rows[lost].country == a.country then s.origins
                       else Bump(Bump(s.origins, s.rows[lost].country, -1), a.country, 1);
        Run((s.rows - {lost})[id := a], Without(s.seen, lost) + [r.SeenOf(a)], origins)
  }

  function ApplyHits(r: Rules, s: Run, hits: seq<Article>): Run {
    if hits == [] then s else ApplyHit(r, ApplyHits(r, s, hits[..|hits| - 1]), hits[|hits| - 1])
  }

  /** What a headline changes: a new one is added to the rows and the seen list; one that replaces
      a row of this run takes that row and its seen entries away; any other changes nothing. */
  lemma HitChanges(r: Rules, s: Run, a: Article, x: Seen)
    ensures var t, v := ApplyHit(r, s, a), Judgement(r, a, s.seen);
            var mine := Seen(r.hash(a.url), Norm(a.title), a.domain, r.rank(a.domain), a.published, r.hash(a.url));
            match v
            case Drop => t == s
            case Keep => t.rows == s.rows[r.hash(a.url) := a] && t.seen == s.seen + [mine]
            case Replace(lost) =>
              if lost !in s.rows then t == s
              else
                && t.rows == (s.rows - {lost})[r.hash(a.url) := a]
                && t.seen != [] && t.seen[|t.seen| - 1] == mine
                && (x in t.seen <==> x == mine || (x in s.seen && x.id != lost))
  {
    var v := Judgement(r, a, s.seen);
    if v.Replace? { WithoutKeeps(s.seen, v.id, x); }
  }

  // -------------------------------------------------------------- consistency

  function Ids(rows: map<string, Article>, country: string): set<string> {
    set id | id in rows && rows[id].country == country
  }

  /** The run's list of seen headlines guards this row against repetition. */
  ghost predicate Guarded(r: Rules, seen: seq<Seen>, a: Article) {
    exists item :: item in seen && item.id == r.Id(a) && item.urlHash == r.hash(a.url)
      && item.titleNorm == Norm(a.title)
  }

  ghost predicate RowsGuarded(r: Rules, s: Run) {
    forall id :: id in s.rows ==> r.Id(s.rows[id]) == id && Guarded(r, s.seen, s.rows[id])
  }

  /** Ids are URL digests, so rows with distinct ids have distinct digests. */
  ghost predicate TitlesDistinct(rows: map<string, Article>) {
    forall i, j :: i in rows && j in rows && i != j ==> Norm(rows[i].title) != Norm(rows[j].title)
  }

  ghost predicate OriginsCount(s: Run) {
    && (forall i, j :: 0 <= i < j < |s.origins| ==> s.origins[i].country != s.origins[j].country)
    && (forall k :: 0 <= k < |s.origins| ==> s.origins[k].articles == |Ids(s.rows, s.origins[k].country)|)
  }

  ghost predicate Consistent(r: Rules, s: Run) {
    RowsGuarded(r, s) && TitlesDistinct(s.rows) && OriginsCount(s)
  }

  lemma {:induction false} BumpAt(origins: seq<Origin>, country: string, delta: int, k: nat)
    requires k < |origins|
    requires forall i, j :: 0 <= i < j < |origins| ==> origins[i].country != origins[j].country
    ensures Bump(origins, country, delta)[k].articles ==
              if origins[k].country != country then origins[k].articles
              else if origins[k].articles + delta < 0 then 0 else origins[k].articles + delta
  {
    if origins[0].country == country {
      assert k > 0 ==> origins[k].country != country;
    } else if k > 0 {
      BumpAt(origins[1..], country, delta, k - 1);
    }
  }

  /** Only the first origin of the country moves. */
  lemma {:induction false} BumpFirst(origins: seq<Origin>, country: string, delta: int, i: nat)
    requires i <= |origins|
    requires forall j :: 0 <= j < i ==> origins[j].country != country
    requires i < |origins| ==> origins[i].country == country
    ensures Bump(origins, country, delta) ==
              if i == |origins| then origins
              else origins[i := origins[i].(articles := if origins[i].articles + delta < 0 then 0
                else origins[i].articles + delta)]
  {
    if i > 0 {
      BumpFirst(origins[1..], country, delta, i - 1);
      if i < |origins| {
        var now := origins[i].(articles := if origins[i].articles + delta < 0 then 0 else origins[i].articles + delta);
        UpdateRest(origins, i, now);
      } else {
        assert origins == [origins[0]] + origins[1..];
      }
    }
  }

  lemma UpdateRest(origins: seq<Origin>, i: nat, now: Origin)
    requires 0 < i < |origins|
    ensures origins[i := now] == [origins[0]] + origins[1..][i - 1 := now]
  {
  }

  lemma {:induction false} WithoutKeeps(seen: seq<Seen>, id: string, item: Seen)
    ensures item in Without(seen, id) <==> item in seen && item.id != id
  {
    if seen != [] {
      assert seen == seen[..|seen| - 1] + [seen[|seen| - 1]];
      WithoutKeeps(seen[..|seen| - 1], id, item);
    }
  }

  lemma IdsAfterInsert(rows: map<string, Article>, id: string, a: Article, country: string)
    requires id !in rows
    ensures |Ids(rows[id := a], country)| == |Ids(rows, country)| + if a.country == country then 1 else 0
  {
    assert Ids(rows[id := a], country) == Ids(rows, country) + if a.country == country then {id} else {};
  }

  lemma IdsAfterDelete(rows: map<string, Article>, id: string, country: string)
    requires id in rows
    ensures |Ids(rows - {id}, country)| == |Ids(rows, country)| - if rows[id].country == country then 1 else 0
  {
    assert Ids(rows, country) == Ids(rows - {id}, country) + if rows[id].country == country then {id} else {};
  }

  /** A headline that is neither dropped nor refused has an id and a title of its own. */
  lemma AdmittedIsNew(r: Rules, s: Run, a: Article)
    requires Consistent(r, s) && Judgement(r, a, s.seen) != Drop
    ensures r.Id(a) !in s.rows
    ensures forall id :: id in s.rows ==> Norm(s.rows[id].title) != Norm(a.title)
  {
    forall id | id in s.rows ensures id != r.Id(a) && Norm(s.rows[id].title) != Norm(a.title) {
      var item :| item in s.seen && item.id == r.Id(s.rows[id]) && item.urlHash == r.hash(s.rows[id].url)
                  && item.titleNorm == Norm(s.rows[id].title);
      assert !Known(r, a, item);
    }
  }

  lemma KeepKeeps(r: Rules, s: Run, a: Article)
    requires Consistent(r, s) && Judgement(r, a, s.seen) == Keep
    ensures Consistent(r, ApplyHit(r, s, a))
    ensures |ApplyHit(r, s, a).rows| == |s.rows| + 1
  {
    AdmittedIsNew(r, s, a);
    var s' := ApplyHit(r, s, a);
    assert r.SeenOf(a) in s'.seen;
    forall id | id in s'.rows ensures r.Id(s'.rows[id]) == id && Guarded(r, s'.seen, s'.rows[id]) {
      if id in s.rows { assert Guarded(r, s.seen, s.rows[id]); }
    }
    forall k | 0 <= k < |s'.origins| ensures s'.origins[k].articles == |Ids(s'.rows, s'.origins[k].country)| {
      BumpAt(s.origins, a.country, 1, k);
      IdsAfterInsert(s.rows, r.Id(a), a, s.origins[k].country);
    }
  }

  lemma ReplaceGuards(r: Rules, s: Run, a: Article, lost: string, id: string)
    requires Consistent(r, s) && lost in s.rows && id in s.rows && id != lost
    ensures Guarded(r, Without(s.seen, lost) + [r.SeenOf(a)], s.rows[id])
  {
    var item :| item in s.seen && item.id == r.Id(s.rows[id]) && item.urlHash == r.hash(s.rows[id].url)
                && item.titleNorm == Norm(s.rows[id].title);
    WithoutKeeps(s.seen, lost, item);
    assert item in Without(s.seen, lost) + [r.SeenOf(a)];
  }

  lemma IdsAfterReplace(rows: map<string, Article>, lost: string, id: string, a: Article, country: string)
    requires lost in rows && id !in rows
    ensures |Ids((rows - {lost})[id := a], country)| ==
      |Ids(rows, country)| - (if rows[lost].country == country then 1 else 0) + if a.country == country then 1 else 0
  {
    IdsAfterDelete(rows, lost, country);
    IdsAfterInsert(rows - {lost}, id, a, country);
  }

  /** Moving one from a country that has some to another. */
  lemma BumpTwice(origins: seq<Origin>, was: string, now: string, k: nat)
    requires k < |origins| && was != now && (origins[k].country == was ==> origins[k].articles > 0)
    requires forall i, j :: 0 <= i < j < |origins| ==> origins[i].country != origins[j].country
    ensures Bump(Bump(origins, was, -1), now, 1)[k].country == origins[k].country
    ensures Bump(Bump(origins, was, -1), now, 1)[k].articles ==
      origins[k].articles - (if origins[k].country == was then 1 else 0) + if origins[k].country == now then 1 else 0
  {
    BumpAt(origins, was, -1, k);
    BumpAt(Bump(origins, was, -1), now, 1, k);
  }

  lemma ReplaceCounts(r: Rules, s: Run, a: Article, lost: string, k: nat)
    requires Consistent(r, s) && Judgement(r, a, s.seen) == Replace(lost) && lost in s.rows && k < |s.origins|
    ensures var s' := ApplyHit(r, s, a);
            s'.origins[k].country == s.origins[k].country
              && s'.origins[k].articles == |Ids(s'.rows, s.origins[k].country)|
  {
    AdmittedIsNew(r, s, a);
    var was, country := s.rows[lost].country, s.origins[k].country;
    IdsAfterReplace(s.rows, lost, r.Id(a), a, country);
    if country == was { assert lost in Ids(s.rows, was); }
    if was != a.country { BumpTwice(s.origins, was, a.country, k); }
  }

  lemma ReplaceRows(rows: map<string, Article>, lost: string, id: string, a: Article)
    requires TitlesDistinct(rows) && lost in rows && id !in rows
    requires forall i :: i in rows ==> Norm(rows[i].title) != Norm(a.title)
    ensures |(rows - {lost})[id := a]| == |rows|
    ensures TitlesDistinct((rows - {lost})[id := a])
  {
    var rest := rows - {lost};
    assert rows == rest[lost := rows[lost]];
  }

  lemma ReplaceOrigins(r: Rules, s: Run, a: Article, lost: string)
    requires Consistent(r, s) && Judgement(r, a, s.seen) == Replace(lost) && lost in s.rows
    ensures OriginsCount(ApplyHit(r, s, a))
  {
    var s' := ApplyHit(r, s, a);
    assert |s'.origins| == |s.origins|;
    forall k: nat | k < |s.origins|
      ensures s'.origins[k].country == s.origins[k].country
      ensures s'.origins[k].articles == |Ids(s'.rows, s.origins[k].country)|
    {
      ReplaceCounts(r, s, a, lost, k);
    }
  }

  lemma ReplaceKeeps(r: Rules, s: Run, a: Article, lost: string)
    requires Consistent(r, s) && Judgement(r, a, s.seen) == Replace(lost) && lost in s.rows
    ensures Consistent(r, ApplyHit(r, s, a))
    ensures |ApplyHit(r, s, a).rows| == |s.rows|
  {
    AdmittedIsNew(r, s, a);
    ReplaceRows(s.rows, lost, r.Id(a), a);
    ReplaceOrigins(r, s, a, lost);
    var s' := ApplyHit(r, s, a);
    assert r.SeenOf(a) in s'.seen;
    forall id | id in s'.rows && id != r.Id(a) ensures Guarded(r, s'.seen, s'.rows[id]) {
      ReplaceGuards(r, s, a, lost, id);
    }
  }

  /** One headline, whatever becomes of it, leaves the run consistent. */
  lemma HitKeeps(r: Rules, s: Run, a: Article)
    requires Consistent(r, s)
    ensures Consistent(r, ApplyHit(r, s, a))
    ensures |ApplyHit(r, s, a).rows| == |s.rows| + if Judgement(r, a, s.seen) == Keep then 1 else 0
  {
    match Judgement(r, a, s.seen)
    case Drop =>
    case Keep => KeepKeeps(r, s, a);
    case Replace(lost) => if lost in s.rows { ReplaceKeeps(r, s, a, lost); }
  }

  /** Any sequence of headlines keeps titles and URL digests distinct, every row guarded, and
      every country's total equal to its number of rows. */
  lemma {:induction false} HitsKeep(r: Rules, s: Run, hits: seq<Article>)
    requires Consistent(r, s)
    ensures Consistent(r, ApplyHits(r, s, hits))
    ensures |s.rows| <= |ApplyHits(r, s, hits).rows| <= |s.rows| + |hits|
  {
    if hits != [] {
      HitsKeep(r, s, hits[..|hits| - 1]);
      HitKeeps(r, ApplyHits(r, s, hits[..|hits| - 1]), hits[|hits| - 1]);
    }
  }

  /** A replacement that names a row of another run changes nothing. */
  lemma OutsideRunIsRefused(r: Rules, s: Run, a: Article)
    requires Judgement(r, a, s.seen).Replace? && Judgement(r, a, s.seen).id !in s.rows
    ensures ApplyHit(r, s, a) == s
    ensures exists item :: item in s.seen && item.id !in s.rows && Rival(r, a, item) && Beats(r, a, item)
  {
    LastRivalIsSeen(r, a, s.seen);
  }

  // ------------------------------------------------------------------ seeding

  /** Saved rows are added to the seen list unless something there already has their id. */
  function Seed(r: Rules, seen: seq<Seen>, rows: seq<Article>): seq<Seen>
    decreases |rows|
  {
    if rows == [] then seen
    else if exists item :: item in seen && item.id == r.Id(rows[0]) then Seed(r, seen, rows[1..])
    else Seed(r, seen + [r.SeenOf(rows[0])], rows[1..])
  }

  lemma {:induction false} SeedAdds(r: Rules, seen: seq<Seen>, rows: seq<Article>, item: Seen)
    ensures item in seen ==> item in Seed(r, seen, rows)
    ensures item in Seed(r, seen, rows) && item !in seen ==>
              (exists a :: a in rows && item == r.SeenOf(a)) && forall other :: other in seen ==> other.id != item.id
    decreases |rows|
  {
    if rows != [] {
      if exists other :: other in seen && other.id == r.Id(rows[0]) {
        SeedAdds(r, seen, rows[1..], item);
      } else {
        SeedAdds(r, seen + [r.SeenOf(rows[0])], rows[1..], item);
        if item in Seed(r, seen, rows) && item !in seen {
          assert rows[0] in rows;
          forall other | other in seen ensures other.id != item.id {
            if item != r.SeenOf(rows[0]) {
              assert item !in seen + [r.SeenOf(rows[0])];
              assert other in seen + [r.SeenOf(rows[0])];
            }
          }
        }
      }
    }
  }

  lemma {:induction false} SeedReaches(r: Rules, seen: seq<Seen>, rows: seq<Article>, a: Article)
    requires a in rows
    requires forall other :: other in seen ==> other.id != r.Id(a)
    requires forall b :: b in rows && r.Id(b) == r.Id(a) ==> b == a
    ensures r.SeenOf(a) in Seed(r, seen, rows)
    decreases |rows|
  {
    if rows[0] == a {
      SeedAdds(r, seen + [r.SeenOf(a)], rows[1..], r.SeenOf(a));
    } else if exists other :: other in seen && other.id == r.Id(rows[0]) {
      SeedReaches(r, seen, rows[1..], a);
    } else {
      SeedReaches(r, seen + [r.SeenOf(rows[0])], rows[1..], a);
    }
  }

  /** After a restart a saved row of the run is guarded exactly when nothing already seen has
      its id, or something with its id also has its title. */
  lemma SeedGuards(r: Rules, seen: seq<Seen>, rows: seq<Article>, a: Article)
    requires a in rows
    requires forall b :: b in rows && r.Id(b) == r.Id(a) ==> b == a
    ensures Guarded(r, Seed(r, seen, rows), a) <==>
              (forall item :: item in seen ==> item.id != r.Id(a)) || Guarded(r, seen, a)
  {
    if forall item :: item in seen ==> item.id != r.Id(a) {
      SeedReaches(r, seen, rows, a);
    } else if Guarded(r, seen, a) {
      var item :| item in seen && item.id == r.Id(a) && item.urlHash == r.hash(a.url)
        && item.titleNorm == Norm(a.title);
      SeedAdds(r, seen, rows, item);
    } else if Guarded(r, Seed(r, seen, rows), a) {
      var item :| item in Seed(r, seen, rows) && item.id == r.Id(a) && item.urlHash == r.hash(a.url)
                  && item.titleNorm == Norm(a.title);
      SeedAdds(r, seen, rows, item);
    }
  }

  // -------------------------------------------------------------- the program

  /** The rows of one run and the memory of one invocation. */
  class Collection {
    var rows: map<string, Article>
    var seen: seq<Seen>
    var origins: seq<Origin>

    function Contents(): Run
      reads this
    {
      Run(rows, seen, origins)
    }

    method Move(country: string, delta: int)
      modifies this`origins
      ensures origins == Bump(old(origins), country, delta)
    {
      for i := 0 to |origins|
        invariant origins == old(origins)
        invariant forall j :: 0 <= j < i ==> origins[j].country != country
      {
        if origins[i].country == country {
          BumpFirst(origins, country, delta, i);
          var n := origins[i].articles + delta;
          origins := origins[i := origins[i].(articles := if n < 0 then 0 else n)];
          return;
        }
      }
      BumpFirst(origins, country, delta, |origins|);
    }

    method Remember(r: Rules, a: Article, replaced: seq<string>)
      requires |replaced| <= 1
      modifies this`seen
      ensures seen == (if replaced == [] then old(seen) else Without(old(seen), replaced[0])) + [r.SeenOf(a)]
    {
      if replaced != [] {
        var kept: seq<Seen> := [];
        for i := 0 to |seen|
          invariant seen == old(seen)
          invariant kept == Without(seen[..i], replaced[0])
        {
          assert seen[..i + 1][..i] == seen[..i];
          if seen[i].id != replaced[0] { kept := kept + [seen[i]]; }
        }
        assert seen[..|seen|] == seen;
        seen := kept;
      }
      seen := seen + [r.SeenOf(a)];
    }

    /** The headlines of one phase-2 reply. */
    method TakeHits(r: Rules, hits: seq<Article>)
      requires Consistent(r, Contents())
      modifies this
      ensures Contents() == ApplyHits(r, old(Contents()), hits)
      ensures Consistent(r, Contents())
    {
      for i := 0 to |hits|
        invariant Contents() == ApplyHits(r, old(Contents()), hits[..i])
      {
        assert hits[..i + 1][..i] == hits[..i];
        var a := hits[i];
        var verdict := Judge(r, a, seen);
        match verdict {
          case Drop =>
          case Keep =>
            Move(a.country, 1);
            Remember(r, a, []);
            rows := rows[r.Id(a) := a];
          case Replace(id) =>
            if id in rows {
              if rows[id].country != a.country {
                Move(rows[id].country, -1);
                Move(a.country, 1);
              }
              rows := rows - {id};
              Remember(r, a, [id]);
              rows := rows[r.Id(a) := a];
            }
        }
      }
      assert hits[..|hits|] == hits;
      HitsKeep(r, old(Contents()), hits);
    }
  }
}
