/** The normalized form that names are searched in, with the way back to the source.

    The form is built beside a list of places, one for each of its characters.  `Closed` and
    `Growing` say what both lists hold while a text is read; `OccursIsWords` says that
    searching for a padded key there is searching for its words in a row. */
module Normalized {
  import opened Tokenizing

  /** The place of a source character: from itself to the next one. */
  datatype Spot = Spot(start: nat, end: nat)

  /** Output `out` with its last word `t` still growing, after a closed output. */
  ghost predicate Growing(out: string, spots: seq<Spot>, ts: seq<Token>)
    decreases |ts|, 0
  {
    && ts != [] && |out| == |spots| && |ts[|ts| - 1].word| < |out|
    && var t, n := ts[|ts| - 1], |out| - |ts[|ts| - 1].word|;
       && Closed(out[..n], spots[..n], ts[..|ts| - 1])
       && forall q :: n <= q < |out| ==>
          out[q] == t.word[q - n] && spots[q] == Spot(t.start + q - n, t.start + q - n + 1)
  }

  /** Output of whole words, each with the places of its characters, a blank after each. */
  ghost predicate Closed(out: string, spots: seq<Spot>, ts: seq<Token>)
    decreases |ts|, 1
  {
    && |out| == |spots| && out != [] && out[|out| - 1] == ' '
    && if ts == [] then |out| == 1 else Growing(out[..|out| - 1], spots[..|out| - 1], ts)
  }

  lemma Start(l: Letters, out: string, spots: seq<Spot>, ts: seq<Token>, spot: Spot, c: char)
    requires Closed(out, spots, ts)
    ensures Growing(out + [c], spots + [spot], ts + [Token([c], spot.start)]) <== spot.end == spot.start + 1
  {
    assert (out + [c])[..|out|] == out && (spots + [spot])[..|out|] == spots
      && (ts + [Token([c], spot.start)])[..|ts|] == ts;
  }

  lemma Grow(out: string, spots: seq<Spot>, ts: seq<Token>, c: char)
    requires Growing(out, spots, ts)
    ensures var t := ts[|ts| - 1];
            Growing(out + [c], spots + [Spot(t.End(), t.End() + 1)], ts[..|ts| - 1] + [Token(t.word + [c], t.start)])
  {
    var t, n := ts[|ts| - 1], |out| - |ts[|ts| - 1].word|;
    var spot := Spot(t.End(), t.End() + 1);
    assert (out + [c])[..n] == out[..n] && (spots + [spot])[..n] == spots[..n];
    assert (ts[..|ts| - 1] + [Token(t.word + [c], t.start)])[..|ts| - 1] == ts[..|ts| - 1];
  }

  lemma Close(out: string, spots: seq<Spot>, ts: seq<Token>, spot: Spot)
    requires Growing(out, spots, ts)
    ensures Closed(out + " ", spots + [spot], ts)
  {
    assert (out + " ")[..|out|] == out && (spots + [spot])[..|out|] == spots;
  }

  ghost predicate Reads(l: Letters, out: string, spots: seq<Spot>, text: string) {
    if Open(l, text) then Growing(out, spots, Tokens(l, text)) else Closed(out, spots, Tokens(l, text))
  }

  lemma EndsBlank(l: Letters, out: string, spots: seq<Spot>, text: string)
    requires Lawful(l) && Reads(l, out, spots, text)
    ensures out != [] && (out[|out| - 1] == ' ' <==> !Open(l, text))
  {
    if Open(l, text) {
      TokensWordy(l, text);
      var t := Tokens(l, text)[|Tokens(l, text)| - 1];
      assert Words(l, text)[|Tokens(l, text)| - 1] == t.word;
      assert out[|out| - 1] == t.word[|t.word| - 1];
    }
  }

  /** Blanks, and every letter folded, with the place each came from. */
  method NormalizedOffsets(l: Letters, text: string) returns (out: string, spots: seq<Spot>)
    requires Lawful(l)
    ensures Closed(out, spots, Tokens(l, text))
  {
    out, spots := " ", [Spot(0, 0)];
    for i := 0 to |text|
      invariant Reads(l, out, spots, text[..i])
    {
      out, spots := Step(l, text[..i], text[i], out, spots);
      NextPrefix(text, i);
    }
    WholePrefix(text);
    EndsBlank(l, out, spots, text);
    if out[|out| - 1] != ' ' {
      Close(out, spots, Tokens(l, text), Spot(|text|, |text|));
      out, spots := out + " ", spots + [Spot(|text|, |text|)];
    }
  }

  lemma NextPrefix(text: string, i: nat)
    requires i < |text|
    ensures text[..i + 1] == text[..i] + [text[i]]
  {
  }

  /** One source character. */
  method Step(l: Letters, before: string, c: char, out: string, spots: seq<Spot>) returns (more: string,
      places: seq<Spot>)
    requires Lawful(l) && Reads(l, out, spots, before)
    ensures Reads(l, more, places, before + [c])
  {
    TokensNext(l, before, c);
    EndsBlank(l, out, spots, before);
    var ch := if l.keep(c) then l.fold(c) else ' ';
    if ch == ' ' && out[|out| - 1] == ' ' { return out, spots; }
    var spot := Spot(|before|, |before| + 1);
    if !l.keep(c) {
      Close(out, spots, Tokens(l, before), spot);
    } else if Open(l, before) {
      Grow(out, spots, Tokens(l, before), ch);
    } else {
      Start(l, out, spots, Tokens(l, before), spot, ch);
    }
    more, places := out + [ch], spots + [spot];
  }

  // -------------------------------------------------------- what it contains

  lemma {:induction false} ClosedIsPadded(out: string, spots: seq<Spot>, ts: seq<Token>)
    requires Closed(out, spots, ts)
    ensures out == Pad(WordsIn(ts))
    decreases |ts|
  {
    if ts != [] {
      var t, n := ts[|ts| - 1], |out| - 1 - |ts[|ts| - 1].word|;
      var body, marks := out[..|out| - 1], spots[..|out| - 1];
      ClosedIsPadded(body[..n], marks[..n], ts[..|ts| - 1]);
      assert WordsIn(ts)[..|ts| - 1] == WordsIn(ts[..|ts| - 1]);
      assert body == body[..n] + t.word;
      assert out == body + " ";
    }
  }

  lemma {:induction false} PadPrefix(ws: seq<string>, k: nat)
    requires k <= |ws|
    ensures Pad(ws[..k]) <= Pad(ws)
    decreases |ws| - k
  {
    if k < |ws| {
      PadPrefix(ws, k + 1);
      assert ws[..k + 1][..k] == ws[..k];
    } else {
      assert ws[..k] == ws;
    }
  }

  /** Where the last word stands. */
  lemma LastPlaces(out: string, spots: seq<Spot>, ts: seq<Token>)
    requires Closed(out, spots, ts) && ts != [] && ts[|ts| - 1].word != []
    ensures var t, n := ts[|ts| - 1], |out| - 1 - |ts[|ts| - 1].word|;
            && n >= 0 && Closed(out[..n], spots[..n], ts[..|ts| - 1])
            && spots[n].start == t.start && spots[|out| - 2].end == t.End()
  {
    var t, n := ts[|ts| - 1], |out| - 1 - |ts[|ts| - 1].word|;
    var body, marks := out[..|out| - 1], spots[..|out| - 1];
    assert body[..n] == out[..n] && marks[..n] == spots[..n];
    assert Growing(body, marks, ts);
    assert marks[n] == spots[n] && marks[|out| - 2] == spots[|out| - 2];
  }

  lemma AtBefore(ts: seq<Token>, k: nat)
    requires k < |ts|
    ensures At(WordsIn(ts), k) == At(WordsIn(ts[..|ts| - 1]), k)
  {
    assert WordsIn(ts)[..|ts| - 1] == WordsIn(ts[..|ts| - 1]);
    AtFront(WordsIn(ts), k);
  }

  lemma AtFront(ws: seq<string>, k: nat)
    requires k < |ws|
    ensures At(ws, k) == At(ws[..|ws| - 1], k)
  {
    assert ws[..|ws| - 1][..k] == ws[..k];
  }

  lemma AtAll(ws: seq<string>)
    ensures At(ws, |ws|) == |Pad(ws)| - 1
  {
    assert ws[..|ws|] == ws;
  }

  /** Between the blanks at `p` and `q` stand the places of word `k`. */
  ghost predicate PlacesAt(spots: seq<Spot>, t: Token, p: nat, q: nat) {
    p + 1 < |spots| && 1 <= q <= |spots| && spots[p + 1].start == t.start && spots[q - 1].end == t.End()
  }

  lemma PlacesStay(spots: seq<Spot>, n: nat, t: Token, p: nat, q: nat)
    requires n <= |spots| && PlacesAt(spots[..n], t, p, q)
    ensures PlacesAt(spots, t, p, q)
  {
    var marks := spots[..n];
    assert marks[p + 1] == spots[p + 1] && marks[q - 1] == spots[q - 1];
  }

  /** The blanks around the last word. */
  lemma LastBlanks(out: string, spots: seq<Spot>, ts: seq<Token>)
    requires Closed(out, spots, ts) && ts != [] && ts[|ts| - 1].word != []
    ensures At(WordsIn(ts), |ts| - 1) == |out| - 2 - |ts[|ts| - 1].word| && At(WordsIn(ts), |ts|) == |out| - 1
  {
    var n, before := |out| - 1 - |ts[|ts| - 1].word|, ts[..|ts| - 1];
    LastPlaces(out, spots, ts);
    ClosedIsPadded(out, spots, ts);
    ClosedIsPadded(out[..n], spots[..n], before);
    AtBefore(ts, |ts| - 1);
    AtAll(WordsIn(ts));
    AtAll(WordsIn(before));
  }

  lemma LastPlacesAt(out: string, spots: seq<Spot>, ts: seq<Token>)
    requires Closed(out, spots, ts) && ts != [] && ts[|ts| - 1].word != []
    ensures PlacesAt(spots, ts[|ts| - 1], At(WordsIn(ts), |ts| - 1), At(WordsIn(ts), |ts|))
  {
    LastPlaces(out, spots, ts);
    LastBlanks(out, spots, ts);
  }

  /** The first and last letters of word `k` stand where the source has them. */
  lemma {:induction false} PlacesOf(out: string, spots: seq<Spot>, ts: seq<Token>, k: nat)
    requires Closed(out, spots, ts) && k < |ts| && forall i :: 0 <= i < |ts| ==> ts[i].word != []
    ensures PlacesAt(spots, ts[k], At(WordsIn(ts), k), At(WordsIn(ts), k + 1))
    decreases |ts|
  {
    if k == |ts| - 1 {
      LastPlacesAt(out, spots, ts);
    } else {
      var n := |out| - 1 - |ts[|ts| - 1].word|;
      LastPlaces(out, spots, ts);
      AtBefore(ts, k);
      AtBefore(ts, k + 1);
      PlacesOf(out[..n], spots[..n], ts[..|ts| - 1], k);
      PlacesStay(spots, n, ts[k], At(WordsIn(ts), k), At(WordsIn(ts), k + 1));
    }
  }

  // ----------------------------------------------------- searching for words

  predicate Occurs(pattern: string, text: string, p: nat) {
    p + |pattern| <= |text| && forall i :: 0 <= i < |pattern| ==> text[p + i] == pattern[i]
  }

  predicate HasAt(ws: seq<string>, key: seq<string>, k: nat) {
    k + |key| <= |ws| && forall i :: 0 <= i < |key| ==> ws[k + i] == key[i]
  }

  ghost predicate Blankless(ws: seq<string>) {
    forall i, j :: 0 <= i < |ws| && 0 <= j < |ws[i]| ==> ws[i][j] != ' '
  }

  /** Between its blanks a word has none. */
  lemma NoBlankWithin(ws: seq<string>)
    requires Blankless(ws) && ws != []
    ensures forall q :: |Pad(ws[..|ws| - 1])| <= q < |Pad(ws)| - 1 ==> Pad(ws)[q] != ' '
  {
    var m, w := |Pad(ws[..|ws| - 1])|, ws[|ws| - 1];
    forall q | m <= q < |Pad(ws)| - 1 ensures Pad(ws)[q] != ' ' {
      assert Pad(ws)[q] == w[q - m];
    }
  }

  lemma SameWord(pad: string, out: string, p: nat, short: string, v: string, rest: string, w: string)
    requires pad == short + v + " " && out == rest + w + " " && Occurs(pad, out, p) && p + |short| == |rest|
             && |v| == |w|
    ensures v == w
  {
    forall i | 0 <= i < |v| ensures v[i] == w[i] {
      assert pad[|short| + i] == v[i] && out[p + (|short| + i)] == w[i];
    }
  }

  /** A padded list that ends another starts its last word where that one does. */
  lemma LastBlanksMeet(key: seq<string>, ws: seq<string>, p: nat)
    requires Blankless(key) && Blankless(ws) && key != [] && Occurs(Pad(key), Pad(ws), p) && p + |Pad(key)| == |Pad(ws)|
    ensures ws != [] && p + |Pad(key[..|key| - 1])| == |Pad(ws[..|ws| - 1])|
  {
    var pad, out, m := Pad(key), Pad(ws), |Pad(key[..|key| - 1])|;
    assert ws != [];
    var rest := Pad(ws[..|ws| - 1]);
    NoBlankWithin(ws);
    NoBlankWithin(key);
    assert out[p + (m - 1)] == pad[m - 1] == ' ';
    assert p + m <= |rest|;
    assert pad[|rest| - 1 - p] == out[p + (|rest| - 1 - p)] == rest[|rest| - 1] == ' ';
  }

  /** The last words agree when a padded list ends another. */
  lemma LastWordsAgree(key: seq<string>, ws: seq<string>, p: nat)
    requires Blankless(key) && Blankless(ws) && key != [] && Occurs(Pad(key), Pad(ws), p) && p + |Pad(key)| == |Pad(ws)|
    ensures ws != [] && ws[|ws| - 1] == key[|key| - 1]
    ensures p + |Pad(key[..|key| - 1])| == |Pad(ws[..|ws| - 1])|
    ensures Occurs(Pad(key[..|key| - 1]), Pad(ws[..|ws| - 1]), p)
  {
    LastBlanksMeet(key, ws, p);
    var short, rest := Pad(key[..|key| - 1]), Pad(ws[..|ws| - 1]);
    SameWord(Pad(key), Pad(ws), p, short, key[|key| - 1], rest, ws[|ws| - 1]);
    ShorterOccurs(short, Pad(key), rest, Pad(ws), p);
  }

  lemma ShorterOccurs(short: string, pattern: string, front: string, text: string, p: nat)
    requires short <= pattern && front <= text && Occurs(pattern, text, p) && p + |short| <= |front|
    ensures Occurs(short, front, p)
  {
    forall i | 0 <= i < |short| ensures front[p + i] == short[i] {
      assert pattern[i] == short[i] && text[p + i] == front[p + i];
    }
  }

  /** A key in the words before the last, and in all. */
  lemma HasAtFront(ws: seq<string>, key: seq<string>, k: nat)
    requires ws != [] && HasAt(ws[..|ws| - 1], key, k)
    ensures HasAt(ws, key, k) && At(ws, k) == At(ws[..|ws| - 1], k)
  {
    var before := ws[..|ws| - 1];
    AtFront(ws, k);
    forall i | 0 <= i < |key| ensures ws[k + i] == key[i] { assert before[k + i] == key[i]; }
  }

  /** A key whose last word is the last of all. */
  lemma HasAtLast(ws: seq<string>, key: seq<string>, k: nat)
    requires ws != [] && key != [] && k + |key| == |ws| && ws[|ws| - 1] == key[|key| - 1]
    requires HasAt(ws[..|ws| - 1], key[..|key| - 1], k)
    ensures HasAt(ws, key, k) && At(ws, k) == At(ws[..|ws| - 1], k)
  {
    HasAtFront(ws, key[..|key| - 1], k);
    forall i | 0 <= i < |key| ensures ws[k + i] == key[i] {
      if i < |key| - 1 { assert ws[k + i] == key[..|key| - 1][i]; }
    }
  }

  lemma {:induction false} SuffixWords(key: seq<string>, ws: seq<string>, p: nat)
    requires Blankless(key) && Blankless(ws) && Occurs(Pad(key), Pad(ws), p) && p + |Pad(key)| == |Pad(ws)|
    ensures |key| <= |ws| && HasAt(ws, key, |ws| - |key|) && p == At(ws, |ws| - |key|)
    decreases |key|
  {
    if key != [] {
      LastWordsAgree(key, ws, p);
      SuffixWords(key[..|key| - 1], ws[..|ws| - 1], p);
      HasAtLast(ws, key, |ws| - |key|);
    } else {
      assert ws[..|ws|] == ws;
    }
  }

  /** A padded list that ends another still ends it with one more word on both. */
  lemma OccursLonger(short: string, front: string, w: string, p: nat)
    requires Occurs(short, front, p) && p + |short| == |front|
    ensures Occurs(short + w + " ", front + w + " ", p)
  {
    var pattern, text := short + w + " ", front + w + " ";
    forall i | 0 <= i < |pattern| ensures text[p + i] == pattern[i] {
      if i < |short| { assert front[p + i] == short[i]; }
    }
  }

  lemma {:induction false} WordsSuffix(key: seq<string>, ws: seq<string>)
    requires |key| <= |ws| && HasAt(ws, key, |ws| - |key|)
    ensures At(ws, |ws| - |key|) + |Pad(key)| == |Pad(ws)| && Occurs(Pad(key), Pad(ws), At(ws, |ws| - |key|))
    decreases |key|
  {
    var k := |ws| - |key|;
    if key != [] {
      var rest, before := key[..|key| - 1], ws[..|ws| - 1];
      forall i | 0 <= i < |rest| ensures before[k + i] == rest[i] { assert ws[k + i] == key[i]; }
      WordsSuffix(rest, before);
      assert before[..k] == ws[..k];
      assert ws[k + (|key| - 1)] == key[|key| - 1];
      OccursLonger(Pad(rest), Pad(before), ws[|ws| - 1], At(ws, k));
    } else {
      assert ws[..k] == ws;
    }
  }

  /** Finding the padded key in a padded text is finding its words in a row. */
  lemma {:induction false} OccursIsWords(key: seq<string>, ws: seq<string>, p: nat)
    requires Blankless(key) && Blankless(ws) && key != []
    ensures Occurs(Pad(key), Pad(ws), p) <==> exists k :: 0 <= k <= |ws| && HasAt(ws, key, k) && p == At(ws, k)
    decreases |ws|
  {
    if k :| 0 <= k <= |ws| && HasAt(ws, key, k) && p == At(ws, k) {
      WordsOccur(key, ws, k);
    }
    if Occurs(Pad(key), Pad(ws), p) {
      OccursWords(key, ws, p);
    }
  }

  lemma OccursIn(pattern: string, part: string, text: string, p: nat)
    requires Occurs(pattern, part, p) && part <= text
    ensures Occurs(pattern, text, p)
  {
  }

  lemma WordsOccur(key: seq<string>, ws: seq<string>, k: nat)
    requires HasAt(ws, key, k)
    ensures At(ws, k) + |Pad(key)| == At(ws, k + |key|) + 1 && Occurs(Pad(key), Pad(ws), At(ws, k))
  {
    var part := ws[..k + |key|];
    assert part[..k] == ws[..k];
    WordsSuffix(key, part);
    PadPrefix(ws, k + |key|);
    OccursIn(Pad(key), Pad(part), Pad(ws), At(ws, k));
  }

  /** An occurrence that does not reach the end lies in front of the last word. */
  lemma OccursEarlier(key: seq<string>, ws: seq<string>, p: nat)
    requires Blankless(ws) && Occurs(Pad(key), Pad(ws), p) && p + |Pad(key)| < |Pad(ws)|
    ensures ws != [] && Occurs(Pad(key), Pad(ws[..|ws| - 1]), p)
  {
    assert |Pad(key)| > 0 && |Pad([])| == 1;
    assert ws != [];
    var front, w := Pad(ws[..|ws| - 1]), ws[|ws| - 1];
    assert Pad(ws) == front + w + " ";
    EarlierIn(Pad(key), front, w, p);
  }

  lemma EarlierIn(pad: string, front: string, w: string, p: nat)
    requires pad != [] && pad[|pad| - 1] == ' ' && forall j :: 0 <= j < |w| ==> w[j] != ' '
    requires Occurs(pad, front + w + " ", p) && p + |pad| <= |front| + |w|
    ensures Occurs(pad, front, p)
  {
    var out, last := front + w + " ", p + |pad| - 1;
    assert out[p + (|pad| - 1)] == ' ';
    forall q | |front| <= q < |front| + |w| ensures out[q] != ' ' { assert out[q] == w[q - |front|]; }
    forall i | 0 <= i < |pad| ensures front[p + i] == pad[i] { assert out[p + i] == pad[i]; }
  }

  lemma {:induction false} OccursWords(key: seq<string>, ws: seq<string>, p: nat)
    requires Blankless(key) && Blankless(ws) && key != [] && Occurs(Pad(key), Pad(ws), p)
    ensures exists k :: 0 <= k <= |ws| && HasAt(ws, key, k) && p == At(ws, k)
    decreases |ws|
  {
    if p + |Pad(key)| == |Pad(ws)| {
      SuffixWords(key, ws, p);
      assert HasAt(ws, key, |ws| - |key|);
    } else {
      OccursEarlier(key, ws, p);
      OccursWords(key, ws[..|ws| - 1], p);
      var k :| 0 <= k <= |ws| - 1 && HasAt(ws[..|ws| - 1], key, k) && p == At(ws[..|ws| - 1], k);
      HasAtFront(ws, key, k);
    }
  }
}
