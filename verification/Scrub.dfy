/** Known record ids in texts and record payloads. */
module Scrub {
  /* Whole-token ids in free text are replaced by packet references, and id fields of record
     payloads are rewritten or removed. */

  import opened Sorting

  const OUTSIDE: string := "a record outside this view"
  const ID_KEYS: set<string> := {"memory_id", "article_id", "source_id", "actor_id"}
  const ID_LIST_KEYS: set<string> := {"premise_claims", "shared_actors"}
  const DROP_KEYS: set<string> := {"run_id", "revision", "origin", "promoted_from", "source_revisions"}

  predicate Alnum(c: char) {
    'a' <= c <= 'z' || 'A' <= c <= 'Z' || '0' <= c <= '9'
  }

  /** Every character outside ASCII bounds a token too. */
  predicate Boundary(c: char) {
    !(Alnum(c) || c == '_' || c == '-')
  }

  function LowerChar(c: char): char {
    if 'A' <= c <= 'Z' then (c as int - 'A' as int + 'a' as int) as char else c
  }

  function Lower(s: string): (l: string)
    ensures |l| == |s|
    ensures forall k :: 0 <= k < |s| ==> l[k] == LowerChar(s[k])
  {
    seq(|s|, k requires 0 <= k < |s| => LowerChar(s[k]))
  }

  /** ASCII capitals have their small letters and nothing else changes; tokens are made of ASCII
      letters and digits, underscores and hyphens, whatever their case. */
  lemma CharactersAre(c: char)
    ensures 'A' <= c <= 'Z' ==> 'a' <= LowerChar(c) <= 'z' && LowerChar(c) as int - 'a' as int == c as int - 'A' as int
    ensures !('A' <= c <= 'Z') ==> LowerChar(c) == c
    ensures Boundary(c) <==> !('a' <= LowerChar(c) <= 'z' || '0' <= c <= '9' || c == '_' || c == '-')
    ensures Utf8(c) == if c <= '\U{7F}' then 1 else if c <= '\U{7FF}' then 2 else if c <= '\U{FFFF}' then 3 else 4
  {
  }

  /** Length in UTF-8, by which the ids are ordered. */
  function Bytes(s: string): nat {
    if s == "" then 0 else Utf8(s[0]) + Bytes(s[1..])
  }

  function Utf8(c: char): nat {
    if c < '\U{80}' then 1 else if c < '\U{800}' then 2 else if c < '\U{10000}' then 3 else 4
  }

  predicate LongerFirst(a: string, b: string) { Bytes(a) >= Bytes(b) }

  ghost predicate Descending(order: seq<string>) {
    order == [] || ((forall id :: id in order[1..] ==> LongerFirst(order[0], id)) && Descending(order[1..]))
  }

  lemma {:induction false} SortedDescends(order: seq<string>)
    requires Sorted(LongerFirst, order)
    ensures Descending(order)
  {
    if order != [] { SortedDescends(order[1..]); }
  }

  /** Lower-case ids with their replacement texts, and the order in which they are tried. */
  datatype Aliases = Aliases(names: map<string, string>, order: seq<string>) {
    ghost predicate Valid() {
      && (forall id :: id in order <==> id in names)
      && (forall id :: id in names ==> |id| >= 1)
      && Descending(order)
    }
  }

  /** Ids that tie may be tried in any order: at one place at most one of them matches. */
  function Finish(names: map<string, string>, ids: seq<string>): Aliases {
    Aliases(names, Sort(LongerFirst, ids))
  }

  lemma FinishOrders(names: map<string, string>, ids: seq<string>)
    requires forall id :: id in ids <==> id in names
    requires forall id :: id in names ==> |id| >= 1
    ensures Finish(names, ids).Valid()
  {
    SortSorts(LongerFirst, ids);
    SortedDescends(Sort(LongerFirst, ids));
    forall id ensures id in Finish(names, ids).order <==> id in names { SortKeeps(LongerFirst, ids, id); }
  }

  // --------------------------------------------------------------- free text

  /** `id` stands at `i` and is not part of a longer token. */
  predicate Whole(text: string, i: nat, id: string) {
    && i + |id| <= |text|
    && (forall k :: 0 <= k < |id| ==> LowerChar(text[i + k]) == id[k])
    && (i == 0 || Boundary(text[i - 1]))
    && (i + |id| == |text| || Boundary(text[i + |id|]))
  }

  function FirstMatch(text: string, i: nat, order: seq<string>): string {
    if order == [] then "" else if Whole(text, i, order[0]) then order[0] else FirstMatch(text, i, order[1..])
  }

  datatype Segment = Copy(c: char) | Replace(id: string)

  /** What the scan does from position `i` on. */
  function Scan(a: Aliases, text: string, i: nat): seq<Segment>
    decreases |text| - i
  {
    if i >= |text| then []
    else
      var id := FirstMatch(text, i, a.order);
      if id == "" then [Copy(text[i])] + Scan(a, text, i + 1)
      else [Replace(id)] + Scan(a, text, i + |id|)
  }

  function Shown(a: Aliases, part: Segment): string {
    match part
    case Copy(c) => [c]
    case Replace(id) => if id in a.names then a.names[id] else ""
  }

  function Render(a: Aliases, parts: seq<Segment>): string {
    if parts == [] then "" else Shown(a, parts[0]) + Render(a, parts[1..])
  }

  function ScrubText(a: Aliases, text: string): string {
    Render(a, Scan(a, text, 0))
  }

  function Width(part: Segment): nat {
    if part.Copy? then 1 else |part.id|
  }

  /** One turn of the scan: a known id or a single character. */
  lemma ScanStep(a: Aliases, text: string, i: nat)
    requires a.Valid() && i < |text|
    ensures var id, parts := FirstMatch(text, i, a.order), Scan(a, text, i);
            && parts != [] && parts[0] == (if id == "" then Copy(text[i]) else Replace(id))
            && (id != "" ==> id in a.names && |id| >= 1)
            && i + Width(parts[0]) <= |text|
            && parts[1..] == Scan(a, text, i + Width(parts[0]))
  {
    Pick(a, text, i);
  }

  /** The output from position `i` on, without the parts. */
  function ScrubFrom(a: Aliases, text: string, i: nat): string
    decreases |text| - i
  {
    if i >= |text| then ""
    else
      var id := FirstMatch(text, i, a.order);
      if id == "" then [text[i]] + ScrubFrom(a, text, i + 1)
      else (if id in a.names then a.names[id] else "") + ScrubFrom(a, text, i + |id|)
  }

  lemma {:induction false} ScrubFromRenders(a: Aliases, text: string, i: nat)
    ensures ScrubFrom(a, text, i) == Render(a, Scan(a, text, i))
    decreases |text| - i
  {
    if i < |text| {
      var id := FirstMatch(text, i, a.order);
      ScrubFromRenders(a, text, i + if id == "" then 1 else |id|);
    }
  }

  method FindId(a: Aliases, text: string, i: nat) returns (found: string)
    ensures found == FirstMatch(text, i, a.order)
  {
    for k := 0 to |a.order|
      invariant FirstMatch(text, i, a.order) == FirstMatch(text, i, a.order[k..])
    {
      if Whole(text, i, a.order[k]) { return a.order[k]; }
    }
    found := "";
  }

  /** What one turn of the scan writes, and how far it moves. */
  method Piece(a: Aliases, text: string, i: nat) returns (piece: string, width: nat)
    requires a.Valid() && i < |text|
    ensures 0 < width && i + width <= |text|
    ensures ScrubFrom(a, text, i) == piece + ScrubFrom(a, text, i + width)
  {
    var id := FindId(a, text, i);
    FirstMatchIs(text, i, a.order);
    if id != "" {
      piece, width := a.names[id], |id|;
    } else {
      piece, width := [text[i]], 1;
    }
  }

  lemma Regroup(a: string, b: string, c: string)
    ensures a + (b + c) == (a + b) + c
  {
  }

  method ScrubLoop(a: Aliases, text: string) returns (out: string)
    requires a.Valid()
    ensures out == ScrubText(a, text)
  {
    out := "";
    var i: nat := 0;
    ghost var whole := ScrubFrom(a, text, 0);
    while i < |text|
      invariant i <= |text|
      invariant whole == out + ScrubFrom(a, text, i)
    {
      var piece, width := Piece(a, text, i);
      Regroup(out, piece, ScrubFrom(a, text, i + width));
      out := out + piece;
      i := i + width;
    }
    ScrubFromRenders(a, text, 0);
  }

  lemma {:induction false} FirstMatchIs(text: string, i: nat, order: seq<string>)
    requires forall id :: id in order ==> |id| >= 1
    ensures var id := FirstMatch(text, i, order);
            if id == "" then forall other :: other in order ==> !Whole(text, i, other)
            else id in order && Whole(text, i, id)
  {
    if order != [] && !Whole(text, i, order[0]) {
      assert order[0] in order;
      FirstMatchIs(text, i, order[1..]);
      assert order == [order[0]] + order[1..];
    } else if order != [] {
      assert order[0] in order;
    }
  }

  lemma {:induction false} BytesSplit(s: string, t: string)
    ensures Bytes(s + t) == Bytes(s) + Bytes(t)
  {
    if s == "" { assert s + t == t; } else { assert (s + t)[1..] == s[1..] + t; BytesSplit(s[1..], t); }
  }

  /** At one place a longer text has more bytes. */
  lemma LongerHasMoreBytes(text: string, i: nat, id: string, other: string)
    requires Whole(text, i, id) && Whole(text, i, other) && |id| < |other|
    ensures Bytes(id) < Bytes(other)
  {
    var tail := other[|id|..];
    assert other[..|id|] == id;
    assert other == id + tail;
    BytesSplit(id, tail);
  }

  /** The replacement made at a place is the longest known id that stands there as a whole
      token; nothing is replaced only if no known id stands there. */
  lemma {:induction false} LongestMatch(text: string, i: nat, order: seq<string>, other: string)
    requires Descending(order) && (forall id :: id in order ==> |id| >= 1)
    requires other in order && Whole(text, i, other)
    ensures FirstMatch(text, i, order) in order && Whole(text, i, FirstMatch(text, i, order))
    ensures |other| <= |FirstMatch(text, i, order)|
  {
    assert order[0] in order && order == [order[0]] + order[1..];
    if !Whole(text, i, order[0]) {
      LongestMatch(text, i, order[1..], other);
    } else if |order[0]| < |other| {
      LongerHasMoreBytes(text, i, order[0], other);
    }
  }

  /** The choice at one place, for a finished set of ids. */
  lemma Pick(a: Aliases, text: string, i: nat)
    requires a.Valid()
    ensures var id := FirstMatch(text, i, a.order);
            if id == "" then forall other :: other in a.names ==> !Whole(text, i, other)
            else id in a.names && |id| >= 1 && Whole(text, i, id)
                 && forall other :: other in a.names && Whole(text, i, other) ==> |other| <= |id|
  {
    FirstMatchIs(text, i, a.order);
    forall other | other in a.names && Whole(text, i, other)
      ensures |other| <= |FirstMatch(text, i, a.order)| && FirstMatch(text, i, a.order) != ""
    {
      LongestMatch(text, i, a.order, other);
    }
  }

  function TotalWidth(parts: seq<Segment>): nat {
    if parts == [] then 0 else Width(parts[0]) + TotalWidth(parts[1..])
  }

  /** Every part of the scan is a copied character, or the longest known id that stands at
      that place as a whole token. */
  ghost predicate Faithful(a: Aliases, parts: seq<Segment>, text: string, i: nat)
    decreases |parts|
  {
    parts == [] ||
    (match parts[0]
     case Copy(c) => i < |text| && c == text[i] && (forall id :: id in a.names ==> !Whole(text, i, id))
       && Faithful(a, parts[1..], text, i + 1)
     case Replace(id) =>
       && id in a.names && Whole(text, i, id)
       && (forall other :: other in a.names && Whole(text, i, other) ==> |other| <= |id|)
       && Faithful(a, parts[1..], text, i + |id|))
  }

  /** The scan cuts the text into such parts. */
  lemma {:induction false} ScanIsFaithful(a: Aliases, text: string, i: nat)
    requires a.Valid() && i <= |text|
    ensures Faithful(a, Scan(a, text, i), text, i)
    decreases |text| - i
  {
    if i < |text| {
      Pick(a, text, i);
      var id := FirstMatch(text, i, a.order);
      ScanIsFaithful(a, text, i + if id == "" then 1 else |id|);
    }
  }

  /** The parts follow each other without gaps to the end of the text. */
  lemma {:induction false} ScanLosesNothing(a: Aliases, text: string, i: nat)
    requires a.Valid() && i <= |text|
    ensures TotalWidth(Scan(a, text, i)) == |text| - i
    decreases |text| - i
  {
    if i < |text| {
      ScanStep(a, text, i);
      ScanLosesNothing(a, text, i + Width(Scan(a, text, i)[0]));
    }
  }

  /** Position `p`, counted from the first part, lies inside a replaced part. */
  predicate Covered(parts: seq<Segment>, p: nat)
    decreases |parts|
  {
    parts != [] &&
    if p < Width(parts[0]) then parts[0].Replace? else Covered(parts[1..], p - Width(parts[0]))
  }

  /** Wherever a known id stands as a whole token, it begins inside a replaced part, so no
      such id is copied from its beginning. */
  lemma {:induction false} ScanCovers(a: Aliases, text: string, i: nat, p: nat, id: string)
    requires a.Valid() && i <= p && id in a.names && Whole(text, p, id)
    ensures Covered(Scan(a, text, i), p - i)
    decreases |text| - i
  {
    ScanStep(a, text, i);
    var first := Scan(a, text, i)[0];
    if i + Width(first) <= p {
      ScanCovers(a, text, i + Width(first), p, id);
    } else if first.Copy? {
      Pick(a, text, i);
    }
  }

  /** Text in which no known id stands as a whole token is returned as it is. */
  lemma {:induction false} CleanTextUnchanged(a: Aliases, text: string, i: nat)
    requires a.Valid() && i <= |text|
    requires forall p: nat, id :: id in a.names ==> !Whole(text, p, id)
    ensures Render(a, Scan(a, text, i)) == text[i..]
    decreases |text| - i
  {
    if i < |text| {
      Pick(a, text, i);
      CleanTextUnchanged(a, text, i + 1);
    }
  }

  // ----------------------------------------------------- what no text contains

  /** No known id stands in the text as a whole token. */
  ghost predicate Clean(a: Aliases, text: string) {
    forall p: nat, id :: id in a.names ==> !Whole(text, p, id)
  }

  /** Ids are kept in lower case; each is a single token. */
  ghost predicate SingleTokens(a: Aliases) {
    forall id :: id in a.names ==> |id| >= 1 && Lower(id) == id && forall k :: 0 <= k < |id| ==> !Boundary(id[k])
  }

  /** No replacement text contains a known id. */
  ghost predicate CleanAliases(a: Aliases) {
    forall id :: id in a.names ==> Clean(a, a.names[id])
  }

  lemma LowerKeepsBoundary(c: char)
    ensures Boundary(LowerChar(c)) <==> Boundary(c)
  {
  }

  /** An id begins inside a token.  It also ends inside one, or no replacement text continues it. */
  ghost predicate Anchored(a: Aliases) {
    && (forall id :: id in a.names ==> id != "" && !Boundary(id[0]))
    && ((forall id :: id in a.names ==> id != "" && !Boundary(id[|id| - 1]))
        || (forall id :: id in a.names ==> a.names[id] != "" && !Boundary(a.names[id][0])))
  }

  /** A replacement text laid over the id from place `e` on, before its start when negative, agrees
      with it, and where one of the two ends inside the other a token ends. */
  predicate Clash(id: string, alias: string, e: int) {
    && -|alias| < e < |id|
    && (forall k :: 0 <= k < |alias| && 0 <= e + k < |id| ==> LowerChar(alias[k]) == id[e + k])
    && (0 < e ==> Boundary(id[e - 1]))
    && (e + |alias| < |id| ==> Boundary(id[e + |alias|]))
    && (e < 0 ==> Boundary(alias[-e - 1]))
    && (|id| - e < |alias| ==> Boundary(alias[|id| - e]))
  }

  /** No replacement text can be laid over part of a known id, or the other way round. */
  ghost predicate Apart(a: Aliases) {
    forall id, other, e: int :: id in a.names && other in a.names ==> !Clash(id, a.names[other], e)
  }

  /** The id but for its first `m` characters begins the output, and a token ends with it. */
  predicate Continues(out: string, id: string, m: nat) {
    && m <= |id| <= |out| + m
    && (forall k :: m <= k < |id| ==> LowerChar(out[k - m]) == id[k])
    && (|id| - m == |out| || Boundary(out[|id| - m]))
  }

  /** The table's ids and replacement texts are such that scrubbing can leave no id. */
  ghost predicate Sound(a: Aliases) { a.Valid() && Anchored(a) && Apart(a) }

  lemma BeginsInToken(text: string, p: nat, id: string)
    requires Whole(text, p, id) && id != "" && !Boundary(id[0])
    ensures !Boundary(text[p])
  {
    assert LowerChar(text[p + 0]) == id[0];
    LowerKeepsBoundary(text[p]);
  }

  lemma BoundaryIsCopied(a: Aliases, text: string, j: nat)
    requires a.Valid() && Anchored(a) && j < |text| && Boundary(text[j])
    ensures FirstMatch(text, j, a.order) == ""
  {
    Pick(a, text, j);
    forall id | id in a.names ensures !Whole(text, j, id) {
      if Whole(text, j, id) { BeginsInToken(text, j, id); }
    }
  }

  lemma ScrubStep(a: Aliases, text: string, i: nat)
    requires i < |text|
    ensures var found := FirstMatch(text, i, a.order);
            ScrubFrom(a, text, i) ==
              if found == "" then [text[i]] + ScrubFrom(a, text, i + 1)
              else (if found in a.names then a.names[found] else "") + ScrubFrom(a, text, i + |found|)
  {
  }

  /** Behind a replaced id the text ends, or a boundary is copied. */
  lemma AfterReplaced(a: Aliases, text: string, i: nat)
    requires a.Valid() && Anchored(a) && i < |text| && FirstMatch(text, i, a.order) != ""
    ensures var found := FirstMatch(text, i, a.order);
            var j := i + |found|;
            && found in a.names && j <= |text| && (0 < i ==> Boundary(text[i - 1]))
            && ScrubFrom(a, text, i) == a.names[found] + ScrubFrom(a, text, j)
            && (j < |text| ==> Boundary(text[j]) && ScrubFrom(a, text, j) == [text[j]] + ScrubFrom(a, text, j + 1))
  {
    var found := FirstMatch(text, i, a.order);
    FirstMatchIs(text, i, a.order);
    assert Whole(text, i, found);
    ScrubStep(a, text, i);
    var j := i + |found|;
    if j < |text| {
      BoundaryIsCopied(a, text, j);
      ScrubStep(a, text, j);
    }
  }

  /** An id that goes on into a replacement text clashes with it. */
  lemma IntoReplaced(a: Aliases, text: string, i: nat, id: string, m: nat)
    requires a.Valid() && Anchored(a) && i < |text| && FirstMatch(text, i, a.order) != ""
    requires id in a.names && m < |id| && Continues(ScrubFrom(a, text, i), id, m) && (0 < m ==> Boundary(id[m - 1]))
    requires var found := FirstMatch(text, i, a.order); found in a.names && (0 < m || a.names[found] != "")
    ensures Clash(id, a.names[FirstMatch(text, i, a.order)], m)
  {
    AfterReplaced(a, text, i);
    var alias, out := a.names[FirstMatch(text, i, a.order)], ScrubFrom(a, text, i);
    forall k | 0 <= k < |alias| && 0 <= m + k < |id| ensures LowerChar(alias[k]) == id[m + k] {
      assert LowerChar(out[m + k - m]) == id[m + k];
    }
    if m + |alias| < |id| {
      assert LowerChar(out[m + |alias| - m]) == id[m + |alias|];
      LowerKeepsBoundary(out[|alias|]);
    }
    if |id| - m < |alias| { assert out[|id| - m] == alias[|id| - m]; }
  }

  /** What goes on with an id is copied. */
  lemma CopyFollows(a: Aliases, text: string, i: nat, id: string, m: nat)
    requires Sound(a) && id in a.names && 0 < m <= |id| && 0 < i < |text|
    requires LowerChar(text[i - 1]) == id[m - 1] && Continues(ScrubFrom(a, text, i), id, m)
    ensures FirstMatch(text, i, a.order) == ""
  {
    var found := FirstMatch(text, i, a.order);
    if found != "" {
      LowerKeepsBoundary(text[i - 1]);
      AfterReplaced(a, text, i);
      if m < |id| { IntoReplaced(a, text, i, id, m); } else { ReplacedBegins(a.names[found], ScrubFrom(a, text, i)); }
    }
  }

  /** The first `m` characters of the id stand at `p`. */
  predicate Begun(text: string, p: nat, id: string, m: nat) {
    m <= |id| && p + m <= |text| && forall k :: 0 <= k < m ==> LowerChar(text[p + k]) == id[k]
  }

  lemma BegunOn(text: string, p: nat, id: string, m: nat, out: string)
    requires Begun(text, p, id, m) && m < |id| && p + m < |text| && out != "" && out[0] == text[p + m]
             && Continues(out, id, m)
    ensures Begun(text, p, id, m + 1)
  {
    assert LowerChar(out[m - m]) == id[m];
  }

  lemma NextCopied(a: Aliases, text: string, p: nat, id: string, m: nat)
    requires Sound(a) && id in a.names && 0 < m < |id| && Begun(text, p, id, m) && p + m < |text|
    requires Continues(ScrubFrom(a, text, p + m), id, m)
    ensures Begun(text, p, id, m + 1) && Continues(ScrubFrom(a, text, p + m + 1), id, m + 1)
  {
    var i := p + m;
    assert LowerChar(text[p + (m - 1)]) == id[m - 1];
    CopiedNext(a, text, i, id, m);
    BegunOn(text, p, id, m, ScrubFrom(a, text, i));
    ContinuesOn(text[i], ScrubFrom(a, text, i + 1), id, m);
  }

  lemma CopiedNext(a: Aliases, text: string, i: nat, id: string, m: nat)
    requires Sound(a) && id in a.names && 0 < m <= |id| && 0 < i < |text|
    requires LowerChar(text[i - 1]) == id[m - 1] && Continues(ScrubFrom(a, text, i), id, m)
    ensures ScrubFrom(a, text, i) == [text[i]] + ScrubFrom(a, text, i + 1)
  {
    CopyFollows(a, text, i, id, m);
    ScrubStep(a, text, i);
  }

  /** An id that begins with `m` copied characters and goes on in the output stood in the text
      already. */
  lemma {:induction false} CopiedOn(a: Aliases, text: string, p: nat, id: string, m: nat)
    requires Sound(a) && id in a.names && 0 < m && Begun(text, p, id, m)
    requires Continues(ScrubFrom(a, text, p + m), id, m) && (p == 0 || Boundary(text[p - 1]))
    ensures Whole(text, p, id)
    decreases |id| - m
  {
    if m == |id| {
      if p + m < |text| {
        assert LowerChar(text[p + (m - 1)]) == id[m - 1];
        CopiedNext(a, text, p + m, id, m);
      }
      CopiedWhole(text, p, id, ScrubFrom(a, text, p + m));
    } else {
      assert p + m < |text|;
      NextCopied(a, text, p, id, m);
      CopiedOn(a, text, p, id, m + 1);
    }
  }

  lemma CopiedWhole(text: string, p: nat, id: string, out: string)
    requires Begun(text, p, id, |id|) && (p == 0 || Boundary(text[p - 1])) && Continues(out, id, |id|)
    requires p + |id| < |text| ==> out != "" && out[0] == text[p + |id|]
    ensures Whole(text, p, id)
  {
  }

  lemma ReplacedBegins(alias: string, out: string)
    requires alias <= out
    ensures alias != "" && !Boundary(alias[0]) ==> out != "" && !Boundary(out[0])
  {
  }

  lemma ContinuesOn(c: char, rest: string, id: string, m: nat)
    requires m < |id| && Continues([c] + rest, id, m)
    ensures Continues(rest, id, m + 1)
  {
    forall k | m + 1 <= k < |id| ensures LowerChar(rest[k - m - 1]) == id[k] {
      assert LowerChar(([c] + rest)[k - m]) == id[k];
    }
    assert |id| - m < |rest| + 1 ==> ([c] + rest)[|id| - m] == rest[|id| - m - 1];
  }

  /** The output from `i` on holds no known id, but for one that began before `i` or follows a
      replaced id. */
  ghost predicate CleanFrom(a: Aliases, text: string, i: nat)
    requires i <= |text|
  {
    forall p: nat, id :: id in a.names && Whole(ScrubFrom(a, text, i), p, id) ==>
      p == 0 && 0 < i && !Boundary(text[i - 1])
  }

  lemma WholeBehind(front: string, rest: string, p: nat, id: string)
    requires Whole(front + rest, p, id) && p > |front|
    ensures Whole(rest, p - |front|, id)
  {
    forall k | 0 <= k < |id| ensures LowerChar(rest[p - |front| + k]) == id[k] {
      assert (front + rest)[p + k] == rest[p - |front| + k];
    }
    assert (front + rest)[p - 1] == rest[p - |front| - 1];
  }

  lemma WholeAfterFirst(c: char, rest: string, id: string)
    requires Whole([c] + rest, 1, id)
    ensures Whole(rest, 0, id) && Boundary(c)
  {
    forall k | 0 <= k < |id| ensures LowerChar(rest[0 + k]) == id[k] { assert ([c] + rest)[1 + k] == rest[k]; }
  }

  /** An id at the start of copied output stood in the text. */
  lemma CopiedStart(a: Aliases, text: string, i: nat, id: string)
    requires Sound(a) && i < |text| && FirstMatch(text, i, a.order) == "" && id in a.names
    requires Whole(ScrubFrom(a, text, i), 0, id) && (i == 0 || Boundary(text[i - 1]))
    ensures Whole(text, i, id)
  {
    var out, rest := ScrubFrom(a, text, i), ScrubFrom(a, text, i + 1);
    assert out == [text[i]] + rest;
    assert LowerChar(out[0 + 0]) == id[0];
    WholeContinues(out, id);
    ContinuesOn(text[i], rest, id, 0);
    CopiedOn(a, text, i, id, 1);
  }

  lemma CopyIsClean(a: Aliases, text: string, i: nat)
    requires Sound(a) && i < |text| && FirstMatch(text, i, a.order) == "" && CleanFrom(a, text, i + 1)
    ensures CleanFrom(a, text, i)
  {
    Pick(a, text, i);
    var out, rest := ScrubFrom(a, text, i), ScrubFrom(a, text, i + 1);
    assert out == [text[i]] + rest;
    forall p: nat, id | id in a.names && Whole(out, p, id) ensures p == 0 && 0 < i && !Boundary(text[i - 1]) {
      if p == 1 { WholeAfterFirst(text[i], rest, id); }
      if p > 1 { WholeBehind([text[i]], rest, p, id); }
      if p == 0 && (i == 0 || Boundary(text[i - 1])) { CopiedStart(a, text, i, id); }
    }
  }

  lemma WholeContinues(out: string, id: string)
    requires Whole(out, 0, id)
    ensures Continues(out, id, 0)
  {
    forall k | 0 <= k < |id| ensures LowerChar(out[k - 0]) == id[k] { assert LowerChar(out[0 + k]) == id[k]; }
  }

  /** An id that begins inside a replacement text clashes with it. */
  lemma FromReplaced(id: string, alias: string, rest: string, p: int)
    requires 0 <= p && Whole(alias + rest, p, id) && p < |alias| && id != "" && (rest != "" ==> Boundary(rest[0]))
    ensures Clash(id, alias, -p)
  {
    var out, e: int := alias + rest, -p;
    forall k: int | 0 <= k < |alias| && 0 <= e + k < |id| ensures LowerChar(alias[k]) == id[e + k] {
      assert LowerChar(out[p + (e + k)]) == id[e + k];
    }
    if |alias| - p < |id| {
      assert LowerChar(out[p + (|alias| - p)]) == id[|alias| - p] && out[|alias|] == rest[0];
      LowerKeepsBoundary(rest[0]);
    }
    if |id| + p < |alias| { assert out[p + |id|] == alias[p + |id|]; }
    if p > 0 { assert out[p - 1] == alias[p - 1]; }
  }

  /** An id behind a replacement text begins later than the boundary after it. */
  lemma BehindReplaced(alias: string, rest: string, p: nat, id: string)
    requires Whole(alias + rest, p, id) && p >= |alias| && id != "" && !Boundary(id[0])
    requires rest != "" ==> Boundary(rest[0])
    ensures p > |alias| && Whole(rest, p - |alias|, id)
  {
    BeginsInToken(alias + rest, p, id);
    WholeBehind(alias, rest, p, id);
  }

  lemma ReplaceIsClean(a: Aliases, text: string, i: nat)
    requires Sound(a) && i < |text|
    requires var id := FirstMatch(text, i, a.order); id != "" && i + |id| <= |text| && CleanFrom(a, text, i + |id|)
    ensures CleanFrom(a, text, i)
  {
    AfterReplaced(a, text, i);
    var j := i + |FirstMatch(text, i, a.order)|;
    var alias, rest := a.names[FirstMatch(text, i, a.order)], ScrubFrom(a, text, j);
    forall p: nat, id | id in a.names ensures !Whole(alias + rest, p, id) {
      if Whole(alias + rest, p, id) {
        if p < |alias| { FromReplaced(id, alias, rest, p); } else { BehindReplaced(alias, rest, p, id); }
      }
    }
  }

  lemma {:induction false} ScrubFromClean(a: Aliases, text: string, i: nat)
    requires Sound(a) && i <= |text|
    ensures CleanFrom(a, text, i)
    decreases |text| - i
  {
    if i < |text| {
      Pick(a, text, i);
      var found := FirstMatch(text, i, a.order);
      ScrubFromClean(a, text, i + if found == "" then 1 else |found|);
      if found == "" { CopyIsClean(a, text, i); } else { ReplaceIsClean(a, text, i); }
    }
  }

  /** What clashes with a single token contains it. */
  lemma ClashIsWhole(id: string, alias: string, e: int)
    requires Clash(id, alias, e) && forall k :: 0 <= k < |id| ==> !Boundary(id[k])
    ensures e <= 0 && Whole(alias, -e, id)
  {
    forall k | 0 <= k < |id| ensures LowerChar(alias[-e + k]) == id[k] { assert id[e + (-e + k)] == id[k]; }
  }

  lemma SingleTokensApart(a: Aliases)
    requires SingleTokens(a) && CleanAliases(a)
    ensures Anchored(a) && Apart(a)
  {
    forall id, other, e: int | id in a.names && other in a.names ensures !Clash(id, a.names[other], e) {
      if Clash(id, a.names[other], e) { ClashIsWhole(id, a.names[other], e); }
    }
  }

  /** A replacement text that contains an id clashes with it. */
  lemma ApartIsClean(a: Aliases)
    requires Sound(a)
    ensures CleanAliases(a)
  {
    forall other, p: nat, id | other in a.names && id in a.names ensures !Whole(a.names[other], p, id) {
      if Whole(a.names[other], p, id) {
        assert a.names[other] + "" == a.names[other];
        FromReplaced(id, a.names[other], "", p);
      }
    }
  }

  /** Scrubbing leaves no known id in any text, if no replacement text can be laid over one. */
  lemma ScrubTextClean(a: Aliases, text: string)
    requires Sound(a)
    ensures Clean(a, ScrubText(a, text))
  {
    ScrubFromRenders(a, text, 0);
    ScrubFromClean(a, text, 0);
  }

  /** When ids are single tokens, scrubbing removes every known id from every text if and only
      if no replacement text contains one. */
  lemma TextsAreCleanExactlyWhen(a: Aliases)
    requires a.Valid() && SingleTokens(a)
    ensures (forall text: string :: Clean(a, ScrubText(a, text))) <==> CleanAliases(a)
  {
    if CleanAliases(a) {
      SingleTokensApart(a);
      forall text: string ensures Clean(a, ScrubText(a, text)) { ScrubTextClean(a, text); }
    } else {
      var id :| id in a.names && !Clean(a, a.names[id]);
      IdBecomesAlias(a, id);
      assert !Clean(a, ScrubText(a, id));
    }
  }

  lemma StandsInItself(id: string)
    requires Lower(id) == id
    ensures Whole(id, 0, id)
  {
    forall k | 0 <= k < |id| ensures LowerChar(id[0 + k]) == id[k] { assert Lower(id)[k] == id[k]; }
  }

  /** A text that is a known id becomes its replacement. */
  lemma IdBecomesAlias(a: Aliases, id: string)
    requires a.Valid() && id in a.names && Lower(id) == id
    ensures ScrubText(a, id) == a.names[id]
  {
    StandsInItself(id);
    Pick(a, id, 0);
    var found := FirstMatch(id, 0, a.order);
    assert |found| == |id|;
    forall k | 0 <= k < |id| ensures found[k] == id[k] {
      assert LowerChar(id[0 + k]) == found[k] && LowerChar(id[0 + k]) == id[k];
    }
    assert found == id;
    ScrubFromRenders(a, id, 0);
    assert ScrubFrom(a, id, |id|) == "";
  }

  // ------------------------------------------------------- a table made of tokens

  /** A whole token of `n` characters begins at `i`. */
  predicate TokenAt(s: string, i: nat, n: nat) {
    && 0 < n && i + n <= |s|
    && (forall k :: i <= k < i + n ==> !Boundary(s[k]))
    && (i == 0 || Boundary(s[i - 1]))
    && (i + n == |s| || Boundary(s[i + n]))
  }

  /** A token of the id and one of the replacement text are the same, but for upper case. */
  predicate SameToken(id: string, i: nat, alias: string, j: nat, n: nat) {
    && TokenAt(id, i, n) && TokenAt(alias, j, n)
    && forall k :: i <= k < i + n ==> LowerChar(alias[k - i + j]) == id[k]
  }

  /** Ids and replacement texts have no token in common, and begin with one. */
  ghost predicate TokensApart(a: Aliases) {
    && (forall id :: id in a.names ==> id != "" && !Boundary(id[0]))
    && (forall id :: id in a.names ==> a.names[id] != "" && !Boundary(a.names[id][0]))
    && forall id, other, i: nat, j: nat, n: nat :: id in a.names && other in a.names ==>
       !SameToken(id, i, a.names[other], j, n)
  }

  /** Where both texts go on alike inside a token, they share the whole token. */
  lemma {:induction false} TokenGrows(id: string, alias: string, e: int, i: nat, n: nat) returns (m: nat)
    requires Clash(id, alias, e) && 0 < n && i + n <= |id| && 0 <= i - e && i + n - e <= |alias|
    requires (forall k :: i <= k < i + n ==> !Boundary(id[k])) && (i == 0 || Boundary(id[i - 1]))
    requires i == e || Boundary(alias[i - e - 1])
    requires forall k :: i <= k < i + n ==> LowerChar(alias[k - e]) == id[k]
    ensures SameToken(id, i, alias, i - e, m)
    decreases |id| - n
  {
    var j, c: int := i - e, i + n;
    if c < |id| && c - e < |alias| {
      assert LowerChar(alias[c - e]) == id[e + (c - e)];
      LowerKeepsBoundary(alias[c - e]);
    }
    if c < |id| && c - e < |alias| && !Boundary(id[c]) {
      m := TokenGrows(id, alias, e, i, n + 1);
    } else {
      m := n;
      forall k: int | j <= k < j + n ensures !Boundary(alias[k]) {
        assert LowerChar(alias[k + e - e]) == id[k + e];
        LowerKeepsBoundary(alias[k]);
      }
    }
  }

  /** A table without a token in common is sound. */
  lemma TokensApartIsSound(a: Aliases)
    requires a.Valid() && TokensApart(a)
    ensures Sound(a)
  {
    forall id, other, e: int | id in a.names && other in a.names ensures !Clash(id, a.names[other], e) {
      var alias := a.names[other];
      if Clash(id, alias, e) {
        var i: nat := if e > 0 then e else 0;
        assert LowerChar(alias[i - e]) == id[e + (i - e)];
        LowerKeepsBoundary(alias[i - e]);
        var n := TokenGrows(id, alias, e, i, 1);
      }
    }
  }

  // --------------------------------------------------------- record payloads

  datatype Field = Field(key: string, value: Json)

  datatype Json = Text(s: string) | List(items: seq<Json>) | Object(fields: seq<Field>) | Number(n: nat) | Other

  function Alias(a: Aliases, id: string): string {
    if Lower(id) in a.names then a.names[Lower(id)] else OUTSIDE
  }

  /** The references of the list's text items that name packet records. */
  function References(a: Aliases, items: seq<Json>): seq<Json> {
    if items == [] then []
    else (if items[0].Text? && Alias(a, items[0].s) != OUTSIDE then [Text(Alias(a, items[0].s))] else [])
         + References(a, items[1..])
  }

  function ScrubValue(a: Aliases, v: Json): Json
    decreases v
  {
    match v
    case Text(s) => Text(ScrubText(a, s))
    case List(items) => List(ScrubItems(a, items))
    case Object(fields) =>
      var outside := Outside(a, fields);
      var kept := ScrubFields(a, fields, outside > 0);
      Object(if outside > 0 then kept + [Field(NOTE, Number(outside))] else kept)
    case _ => v
  }

  function ScrubItems(a: Aliases, items: seq<Json>): seq<Json>
    decreases items
  {
    if items == [] then [] else [ScrubValue(a, items[0])] + ScrubItems(a, items[1..])
  }

  function ScrubField(a: Aliases, f: Field): seq<Field>
    decreases f
  {
    if f.key in DROP_KEYS then []
    else if f.key in ID_KEYS then
      if f.value.Text? && Alias(a, f.value.s) != OUTSIDE then [Field(f.key, Text(Alias(a, f.value.s)))] else []
    else if f.key in ID_LIST_KEYS then
      if f.value.List? then [Field(f.key, List(References(a, f.value.items)))] else [f]
    else [Field(f.key, ScrubValue(a, f.value))]
  }

  /** The field that counts dropped references; it takes the place of one of that name. */
  const NOTE := "outside_this_view"

  predicate GivesWay(f: Field, noted: bool) { noted && f.key == NOTE }

  function ScrubFields(a: Aliases, fields: seq<Field>, noted: bool): seq<Field>
    decreases fields
  {
    if fields == [] then []
    else (if GivesWay(fields[0], noted) then [] else ScrubField(a, fields[0])) + ScrubFields(a, fields[1..], noted)
  }

  function Outside(a: Aliases, fields: seq<Field>): nat {
    if fields == [] then 0
    else (if fields[0].key in ID_LIST_KEYS && fields[0].value.List?
          then Missing(a, fields[0].value.items)
          else 0) + Outside(a, fields[1..])
  }

  function Missing(a: Aliases, items: seq<Json>): nat {
    if items == [] then 0
    else (if items[0].Text? && Alias(a, items[0].s) != OUTSIDE then 0 else 1) + Missing(a, items[1..])
  }

  /** A value that holds a reference to a packet record and nothing else. */
  ghost predicate IsReference(a: Aliases, v: Json) {
    v.Text? && v.s != OUTSIDE && exists id :: id in a.names && a.names[id] == v.s
  }

  /** No text of the value holds a known id, and every id field and id list holds references
      only. */
  ghost predicate Free(a: Aliases, v: Json)
    decreases v, 0
  {
    match v
    case Text(s) => Clean(a, s)
    case List(items) => FreeItems(a, items)
    case Object(fields) => FreeFields(a, fields)
    case _ => true
  }

  ghost predicate FreeItems(a: Aliases, items: seq<Json>)
    decreases items
  {
    items == [] || (Free(a, items[0]) && FreeItems(a, items[1..]))
  }

  ghost predicate FreeFields(a: Aliases, fields: seq<Field>)
    decreases fields
  {
    fields == [] || (FreeField(a, fields[0]) && FreeFields(a, fields[1..]))
  }

  ghost predicate FreeField(a: Aliases, f: Field)
    decreases f
  {
    && f.key !in DROP_KEYS && Free(a, f.value)
    && (f.key in ID_KEYS ==> IsReference(a, f.value))
    && (f.key in ID_LIST_KEYS && f.value.List? ==> forall k :: 0 <= k < |f.value.items| ==>
       IsReference(a, f.value.items[k]))
  }

  /** Whatever stands under an id-list key is a list or free of ids already, outside a field that
      gives way to the count. */
  ghost predicate ListsOrFree(a: Aliases, v: Json)
    decreases v, 0
  {
    match v
    case List(items) => ItemsListsOrFree(a, items)
    case Object(fields) => FieldsListsOrFree(a, fields, Outside(a, fields) > 0)
    case _ => true
  }

  ghost predicate ItemsListsOrFree(a: Aliases, items: seq<Json>)
    decreases items
  {
    items == [] || (ListsOrFree(a, items[0]) && ItemsListsOrFree(a, items[1..]))
  }

  ghost predicate FieldsListsOrFree(a: Aliases, fields: seq<Field>, noted: bool)
    decreases fields
  {
    fields == [] || ((GivesWay(fields[0], noted) || FieldListOrFree(a, fields[0]))
      && FieldsListsOrFree(a, fields[1..], noted))
  }

  ghost predicate FieldListOrFree(a: Aliases, f: Field)
    decreases f
  {
    if f.key in DROP_KEYS || f.key in ID_KEYS then true
    else if f.key in ID_LIST_KEYS then f.value.List? || Free(a, f.value)
    else ListsOrFree(a, f.value)
  }

  lemma {:induction false} ReferencesAre(a: Aliases, items: seq<Json>)
    ensures forall k :: 0 <= k < |References(a, items)| ==> IsReference(a, References(a, items)[k])
    ensures |References(a, items)| + Missing(a, items) == |items|
    ensures CleanAliases(a) ==> FreeItems(a, References(a, items))
  {
    if items != [] {
      ReferencesAre(a, items[1..]);
      if items[0].Text? && Alias(a, items[0].s) != OUTSIDE {
        assert Lower(items[0].s) in a.names;
        assert References(a, items)[1..] == References(a, items[1..]);
      } else {
        assert References(a, items) == References(a, items[1..]);
      }
    }
  }

  lemma KeysApart()
    ensures ID_KEYS !! ID_LIST_KEYS && DROP_KEYS !! ID_KEYS && DROP_KEYS !! ID_LIST_KEYS
    ensures NOTE !in ID_KEYS && NOTE !in ID_LIST_KEYS && NOTE !in DROP_KEYS
  {
  }

  lemma {:induction false} FreeTogether(a: Aliases, first: seq<Field>, rest: seq<Field>)
    ensures FreeFields(a, first + rest) <==> FreeFields(a, first) && FreeFields(a, rest)
  {
    if first == [] {
      assert first + rest == rest;
    } else {
      assert (first + rest)[1..] == first[1..] + rest;
      FreeTogether(a, first[1..], rest);
    }
  }

  /** A scrubbed payload is free of ids if and only if whatever the payload has under an
      id-list key, other than a list, was free of them before. */
  lemma {:induction false} ScrubbedExactlyWhen(a: Aliases, v: Json)
    requires Sound(a)
    ensures Free(a, ScrubValue(a, v)) <==> ListsOrFree(a, v)
    decreases v, 0
  {
    match v
    case Text(s) => ScrubTextClean(a, s);
    case List(items) => ScrubbedItems(a, items);
    case Object(fields) =>
      ScrubbedFields(a, fields, Outside(a, fields) > 0);
      NotedIsFree(a, fields);
    case _ =>
  }

  lemma NotedIsFree(a: Aliases, fields: seq<Field>)
    ensures Free(a, ScrubValue(a, Object(fields))) <==> FreeFields(a, ScrubFields(a, fields, Outside(a, fields) > 0))
  {
    NoteIsFree(a, ScrubFields(a, fields, Outside(a, fields) > 0), Outside(a, fields));
  }

  /** The count of dropped references adds no id. */
  lemma NoteIsFree(a: Aliases, fields: seq<Field>, outside: nat)
    ensures FreeFields(a, fields + [Field(NOTE, Number(outside))]) <==> FreeFields(a, fields)
  {
    var note := Field(NOTE, Number(outside));
    KeysApart();
    assert FreeField(a, note);
    OneField(a, note);
    FreeTogether(a, fields, [note]);
  }

  lemma {:induction false} ScrubbedItems(a: Aliases, items: seq<Json>)
    requires Sound(a)
    ensures FreeItems(a, ScrubItems(a, items)) <==> ItemsListsOrFree(a, items)
    decreases items
  {
    if items != [] {
      ScrubbedExactlyWhen(a, items[0]);
      ScrubbedItems(a, items[1..]);
      assert ScrubItems(a, items)[1..] == ScrubItems(a, items[1..]);
    }
  }

  lemma {:induction false} ScrubbedField(a: Aliases, f: Field)
    requires Sound(a)
    ensures FreeFields(a, ScrubField(a, f)) <==> FieldListOrFree(a, f)
    decreases f
  {
    KeysApart();
    if f.key in DROP_KEYS {
    } else if f.key in ID_KEYS {
      ScrubbedId(a, f);
    } else if f.key in ID_LIST_KEYS {
      ScrubbedList(a, f);
    } else {
      var g := Field(f.key, ScrubValue(a, f.value));
      ScrubbedExactlyWhen(a, f.value);
      OneField(a, g);
    }
  }

  lemma OneField(a: Aliases, f: Field)
    ensures FreeFields(a, [f]) <==> FreeField(a, f)
  {
    assert [f][1..] == [];
  }

  lemma ScrubbedId(a: Aliases, f: Field)
    requires Sound(a) && f.key in ID_KEYS && f.key !in DROP_KEYS && f.key !in ID_LIST_KEYS
    ensures FreeFields(a, ScrubField(a, f))
  {
    if f.value.Text? && Alias(a, f.value.s) != OUTSIDE {
      ApartIsClean(a);
      assert Lower(f.value.s) in a.names;
      OneField(a, Field(f.key, Text(Alias(a, f.value.s))));
    }
  }

  lemma ScrubbedList(a: Aliases, f: Field)
    requires Sound(a) && f.key in ID_LIST_KEYS && f.key !in DROP_KEYS && f.key !in ID_KEYS
    ensures FreeFields(a, ScrubField(a, f)) <==> f.value.List? || Free(a, f.value)
  {
    if f.value.List? { ReferencesFree(a, f.key, f.value.items); } else { OneField(a, f); }
  }

  lemma ReferencesFree(a: Aliases, key: string, items: seq<Json>)
    requires Sound(a) && key in ID_LIST_KEYS && key !in DROP_KEYS && key !in ID_KEYS
    ensures FreeFields(a, [Field(key, List(References(a, items)))])
  {
    ApartIsClean(a);
    ReferencesAre(a, items);
    OneField(a, Field(key, List(References(a, items))));
  }

  lemma {:induction false} ScrubbedFields(a: Aliases, fields: seq<Field>, noted: bool)
    requires Sound(a)
    ensures FreeFields(a, ScrubFields(a, fields, noted)) <==> FieldsListsOrFree(a, fields, noted)
    decreases fields
  {
    if fields != [] {
      ScrubbedFields(a, fields[1..], noted);
      if GivesWay(fields[0], noted) {
        assert ScrubFields(a, fields, noted) == ScrubFields(a, fields[1..], noted);
      } else {
        ScrubbedField(a, fields[0]);
        FreeTogether(a, ScrubField(a, fields[0]), ScrubFields(a, fields[1..], noted));
      }
    }
  }

  /** A value without id fields, dropped keys and known ids. */
  ghost predicate Plain(a: Aliases, v: Json)
    decreases v
  {
    match v
    case Text(s) => Clean(a, s)
    case List(items) => forall i :: 0 <= i < |items| ==> Plain(a, items[i])
    case Object(fields) => PlainFields(a, fields)
    case _ => true
  }

  ghost predicate PlainFields(a: Aliases, fields: seq<Field>)
    decreases fields
  {
    forall i :: 0 <= i < |fields| ==>
      fields[i].key !in DROP_KEYS && fields[i].key !in ID_KEYS && fields[i].key !in ID_LIST_KEYS
      && Plain(a, fields[i].value)
  }

  /** Such a value comes out as it was. */
  lemma {:induction false} PlainStays(a: Aliases, v: Json)
    requires a.Valid() && Plain(a, v)
    ensures ScrubValue(a, v) == v
    decreases v, 0
  {
    match v
    case Text(s) => CleanTextUnchanged(a, s, 0); assert s[0..] == s;
    case List(items) => PlainItemsStay(a, items);
    case Object(fields) => PlainFieldsStay(a, fields);
    case _ =>
  }

  lemma {:induction false} PlainItemsStay(a: Aliases, items: seq<Json>)
    requires a.Valid() && forall i :: 0 <= i < |items| ==> Plain(a, items[i])
    ensures ScrubItems(a, items) == items
    decreases items
  {
    if items != [] {
      PlainStays(a, items[0]);
      assert forall i :: 0 <= i < |items| - 1 ==> items[1..][i] == items[i + 1];
      PlainItemsStay(a, items[1..]);
    }
  }

  lemma {:induction false} PlainFieldsStay(a: Aliases, fields: seq<Field>)
    requires a.Valid() && PlainFields(a, fields)
    ensures ScrubFields(a, fields, false) == fields && Outside(a, fields) == 0
    decreases fields
  {
    if fields != [] {
      PlainStays(a, fields[0].value);
      assert forall i :: 0 <= i < |fields| - 1 ==> fields[1..][i] == fields[i + 1];
      PlainFieldsStay(a, fields[1..]);
    }
  }

  /** What becomes of a field: some keys go, an id field is shown as the reference of its record or
      goes, of an id list the references stay, and under any other key the value is scrubbed. */
  lemma FieldsBecome(a: Aliases, f: Field)
    ensures f.key in {"run_id", "revision", "origin", "promoted_from", "source_revisions"} ==> ScrubField(a, f) == []
    ensures f.key in {"memory_id", "article_id", "source_id", "actor_id"} ==>
      ScrubField(a, f) ==
        if f.value.Text? && Lower(f.value.s) in a.names && a.names[Lower(f.value.s)] != "a record outside this view"
        then [Field(f.key, Text(a.names[Lower(f.value.s)]))] else []
    ensures f.key in {"premise_claims", "shared_actors"} ==>
      ScrubField(a, f) == [if f.value.List? then Field(f.key, List(References(a, f.value.items))) else f]
    ensures f.key !in {"run_id", "revision", "origin", "promoted_from", "source_revisions", "memory_id", "article_id",
                       "source_id", "actor_id", "premise_claims", "shared_actors"} ==>
      ScrubField(a, f) == [Field(f.key, ScrubValue(a, f.value))]
  {
    KeysApart();
  }

  /** A list of ids becomes the references of the records in the packet, in its order. */
  lemma {:induction false} ReferencesJoin(a: Aliases, xs: seq<Json>, ys: seq<Json>)
    ensures References(a, xs + ys) == References(a, xs) + References(a, ys)
  {
    if xs == [] {
      assert xs + ys == ys;
    } else {
      ReferencesJoin(a, xs[1..], ys);
      assert (xs + ys)[1..] == xs[1..] + ys && (xs + ys)[0] == xs[0];
      JsonRegroup(References(a, [xs[0]]), References(a, xs[1..]), References(a, ys));
      ReferencesHead(a, xs);
      ReferencesHead(a, xs + ys);
    }
  }

  lemma ReferencesHead(a: Aliases, xs: seq<Json>)
    requires xs != []
    ensures References(a, xs) == References(a, [xs[0]]) + References(a, xs[1..])
  {
    assert [xs[0]][1..] == [];
  }

  lemma JsonRegroup(x: seq<Json>, y: seq<Json>, z: seq<Json>)
    ensures x + (y + z) == (x + y) + z
  {
  }

  lemma ReferenceOfOne(a: Aliases, id: string)
    ensures References(a, [Text(id)]) ==
      if Lower(id) in a.names && a.names[Lower(id)] != OUTSIDE then [Text(a.names[Lower(id)])] else []
  {
    assert [Text(id)][1..] == [];
  }

  /** The items of id lists that give no reference are counted in a field of their own, which
      takes the place of one of its name. */
  lemma OutsideIsNoted(a: Aliases, fields: seq<Field>, x: Field)
    ensures var out, n := ScrubValue(a, Object(fields)).fields, Outside(a, fields);
            && (n > 0 ==> out != [] && out[|out| - 1] == Field("outside_this_view", Number(n)))
            && var kept := if n > 0 then out[..|out| - 1] else out;
               x in kept <==>
                 exists i :: 0 <= i < |fields| && x in ScrubField(a, fields[i])
                   && (n == 0 || fields[i].key != "outside_this_view")
  {
    KeptFields(a, fields, Outside(a, fields) > 0, x);
  }

  lemma {:induction false} KeptFields(a: Aliases, fields: seq<Field>, noted: bool, x: Field)
    ensures x in ScrubFields(a, fields, noted) <==>
      exists i :: 0 <= i < |fields| && x in ScrubField(a, fields[i])
        && (!noted || fields[i].key != "outside_this_view")
  {
    if fields != [] {
      KeptFields(a, fields[1..], noted, x);
      assert forall i :: 0 <= i < |fields| - 1 ==> fields[1..][i] == fields[i + 1];
      if i :| 0 <= i < |fields| && x in ScrubField(a, fields[i]) && (!noted || fields[i].key != "outside_this_view") {
        assert i > 0 ==> x in ScrubField(a, fields[1..][i - 1]);
      }
    }
  }

  /** One object's count is that of its id lists. */
  lemma {:induction false} OutsideCounts(a: Aliases, fields: seq<Field>, f: Field)
    ensures Outside(a, fields + [f]) == Outside(a, fields) +
      if f.key in {"premise_claims", "shared_actors"} && f.value.List?
      then |f.value.items| - |References(a, f.value.items)| else 0
    ensures Outside(a, []) == 0
  {
    if f.value.List? { ReferencesAre(a, f.value.items); }
    if fields == [] {
      assert fields + [f] == [f] && [f][1..] == [];
    } else {
      assert (fields + [f])[1..] == fields[1..] + [f];
      OutsideCounts(a, fields[1..], f);
    }
  }

  /** A payload that leaks: any known id as a bare text under an id-list key. */
  lemma BareIdLeaks(a: Aliases, id: string)
    requires a.Valid() && id in a.names && Lower(id) == id
    ensures var v := Object([Field("premise_claims", Text(id))]);
            ScrubValue(a, v) == v && !Free(a, v)
  {
    var f := Field("premise_claims", Text(id));
    StandsInItself(id);
    OneFieldScrubbed(a, f);
    OneField(a, f);
  }

  /** A payload of one id-list field that is no list comes out as it was. */
  lemma OneFieldScrubbed(a: Aliases, f: Field)
    requires f.key in ID_LIST_KEYS && !f.value.List?
    ensures ScrubValue(a, Object([f])) == Object([f])
  {
    KeysApart();
    assert [f][1..] == [];
    assert ScrubFields(a, [f], false) == ScrubField(a, f) + ScrubFields(a, [f][1..], false);
    assert Outside(a, [f]) == Outside(a, [f][1..]) == 0;
  }

  const SPLIT := Aliases(map["ab" := "N1", "n1:b" := "N2"], ["n1:b", "ab"])

  lemma SplitIdsAreValid(a: Aliases)
    requires a == SPLIT
    ensures a.Valid() && Anchored(a)
  {
    var long, short := "n1:b", "ab";
    assert a.order[1..] == [short] && [short][1..] == [];
    assert Bytes(short) == 2 && Bytes(long) == 1 + Bytes(long[1..]);
    assert LongerFirst(long, short);
  }

  lemma SplitIdAliases(a: Aliases)
    requires a == SPLIT
    ensures CleanAliases(a) && !Apart(a)
  {
    var long, short := "n1:b", "ab";
    assert Boundary(long[2]) && short in a.names && long in a.names;
    assert Clash(long, a.names[short], 0);
    forall id, p: nat, other | id in a.names && other in a.names ensures !Whole(a.names[id], p, other) {
      if other == short && p == 0 { assert LowerChar(a.names[id][0 + 0]) != other[0]; }
    }
  }

  lemma SplitIdScan(a: Aliases, text: string)
    requires a == SPLIT && text == "ab:b"
    ensures ScrubText(a, text) == "N1:b"
  {
    var long, short := "n1:b", "ab";
    assert a.order[1..] == [short] && [short][1..] == [];
    assert !Whole(text, 0, long) by { assert LowerChar(text[0 + 0]) != long[0]; }
    assert Whole(text, 0, short);
    assert FirstMatch(text, 0, a.order) == short;
    assert !Boundary(text[1]);
    assert !Whole(text, 2, long) && !Whole(text, 2, short) && !Whole(text, 3, long) && !Whole(text, 3, short);
    FirstMatchIs(text, 2, a.order);
    FirstMatchIs(text, 3, a.order);
    ScrubFromRenders(a, text, 0);
    assert ScrubFrom(a, text, 4) == "" && ScrubFrom(a, text, 3) == "b" && ScrubFrom(a, text, 2) == ":b";
    assert ScrubFrom(a, text, 0) == "N1" + ScrubFrom(a, text, 2);
  }

  /** An id of more than one token can come into being beside a replacement: with "ab" shown
      as "N1", the text "ab:b" becomes the id "n1:b". */
  lemma SplitIdLeaks() returns (a: Aliases, text: string)
    ensures a.Valid() && Anchored(a) && CleanAliases(a) && !Apart(a)
    ensures !Clean(a, ScrubText(a, text))
  {
    a, text := SPLIT, "ab:b";
    SplitIdsAreValid(a);
    SplitIdAliases(a);
    SplitIdScan(a, text);
    var id := "n1:b";
    SplitIdStands(ScrubText(a, text), id);
    assert id in a.names;
  }

  lemma SplitIdStands(text: string, id: string)
    requires text == "N1:b" && id == "n1:b"
    ensures Whole(text, 0, id)
  {
  }
}
