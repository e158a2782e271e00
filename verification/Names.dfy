/** Comparison keys of actor names.

    A key is what is left of a name without surrounding quotes, without a possessive ending, in
    lower case and with single blanks.  The lemmas say when a text or a key is its own key. */
module Names {
  import opened Tokenizing

  /** Character classes: letters and digits, their lower case, and white space. */
  datatype Alphabet = Alphabet(alnum: char -> bool, lower: char -> char, space: char -> bool)

  function Folding(a: Alphabet): Letters { Letters(a.alnum, a.lower) }

  function Splitting(a: Alphabet): Letters { Letters((c: char) => !a.space(c), (c: char) => c) }

  /** U+02BC, an apostrophe that Unicode counts as a letter. */
  const MODIFIER: char := '\U{02BC}'
  const CURLY: char := '\U{2019}'

  predicate Quote(c: char) { c == '"' || c == '\U{201C}' || c == '\U{201D}' }

  predicate Apostrophe(c: char) { c == '\'' || c == CURLY || c == MODIFIER }

  ghost predicate Unicode(a: Alphabet) {
    && Lawful(Folding(a))
    && a.space(' ') && (forall c :: a.space(c) ==> !a.alnum(c))
    && (forall c :: Quote(c) ==> !a.alnum(c))
    && !a.alnum('\'') && !a.alnum(CURLY)
    && a.alnum(MODIFIER) && a.lower(MODIFIER) == MODIFIER
    && a.alnum('s') && a.lower('s') == 's'
  }

  function TrimStart(p: char -> bool, s: string): (r: string)
    ensures s != [] && !p(s[0]) ==> r == s
    ensures r == [] || !p(r[0])
  {
    if s == [] then []
    else
      var rest, c := TrimStart(p, s[..|s| - 1]), s[|s| - 1];
      if rest == [] && p(c) then [] else rest + [c]
  }

  function TrimEnd(p: char -> bool, s: string): (r: string)
    ensures r <= s
    ensures r == s || p(s[|s| - 1])
    ensures r == [] || !p(r[|r| - 1])
  {
    if s != [] && p(s[|s| - 1]) then TrimEnd(p, s[..|s| - 1]) else s
  }

  function Trim(p: char -> bool, s: string): string { TrimEnd(p, TrimStart(p, s)) }

  function Join(ws: seq<string>): string {
    if ws == [] then "" else if |ws| == 1 then ws[0] else Join(ws[..|ws| - 1]) + " " + ws[|ws| - 1]
  }

  /** An English possessive at the end. */
  predicate Possessive(a: Alphabet, name: string) {
    |name| >= 2 && Apostrophe(name[|name| - 2]) && a.lower(name[|name| - 1]) == 's'
  }

  /** A name without surrounding blanks and quotes and without its possessive ending. */
  function Stripped(a: Alphabet, text: string): string {
    var name := Trim(Quote, Trim(a.space, text));
    TrimEnd(Apostrophe, if Possessive(a, name) then name[..|name| - 2] else name)
  }

  function NormalizeName(a: Alphabet, text: string): string {
    Join(Words(Splitting(a), Stripped(a, text)))
  }

  function NormalizeAlias(a: Alphabet, text: string): string {
    Join(Words(Folding(a), NormalizeName(a, text)))
  }

  // ------------------------------------------------------------ what is stripped

  /** Straight and curly double quotes surround a name; the straight and the curly apostrophe and
      U+02BC end it. */
  lemma QuotesAndApostrophes(c: char)
    ensures Quote(c) <==> c in {'"', '\U{201C}', '\U{201D}'}
    ensures Apostrophe(c) <==> c in {'\'', '\U{2019}', '\U{02BC}'}
  {
  }

  /** Trimming takes the characters off both ends, up to the first that stays. */
  lemma TrimCuts(p: char -> bool, front: string, s: string, back: string)
    requires s != "" && !p(s[0]) && !p(s[|s| - 1])
    requires AllIn(p, front) && AllIn(p, back)
    ensures Trim(p, front + s + back) == s
  {
    assert front + s + back == front + (s + back);
    StartCuts(p, front, s + back);
    EndCuts(p, s, back);
  }

  lemma {:induction false} StartCuts(p: char -> bool, front: string, s: string)
    requires s != "" && !p(s[0]) && forall c :: c in front ==> p(c)
    ensures TrimStart(p, front + s) == s
    decreases |s|
  {
    var all := front + s;
    if |s| == 1 {
      assert all[..|all| - 1] == front && s == [s[0]];
      AllTrimmed(p, front);
      assert all[|all| - 1] == s[0];
    } else {
      assert all[..|all| - 1] == front + s[..|s| - 1];
      StartCuts(p, front, s[..|s| - 1]);
      assert s == s[..|s| - 1] + [s[|s| - 1]];
    }
  }

  lemma {:induction false} AllTrimmed(p: char -> bool, s: string)
    requires forall c :: c in s ==> p(c)
    ensures TrimStart(p, s) == ""
  {
    if s != "" {
      assert s[|s| - 1] in s;
      AllTrimmed(p, s[..|s| - 1]);
    }
  }

  lemma {:induction false} EndCuts(p: char -> bool, s: string, back: string)
    requires s != "" && !p(s[|s| - 1]) && forall c :: c in back ==> p(c)
    ensures TrimEnd(p, s + back) == s
  {
    if back == "" {
      assert s + back == s;
    } else {
      assert back[|back| - 1] in back;
      assert (s + back)[..|s + back| - 1] == s + back[..|back| - 1];
      EndCuts(p, s, back[..|back| - 1]);
    }
  }

  /** A possessive is an apostrophe and an s, small or capital, at the end. */
  lemma PossessiveExactlyWhen(a: Alphabet, name: string)
    ensures Possessive(a, name) <==>
      exists stem: string, c: char, s: char :: name == stem + [c] + [s] && Apostrophe(c) && a.lower(s) == 's'
  {
    if Possessive(a, name) {
      assert name == name[..|name| - 2] + [name[|name| - 2]] + [name[|name| - 1]];
    }
  }

  lemma EndsOf(x: string, name: string, y: string)
    requires name != ""
    ensures var all := x + name + y;
            && all != "" && all[0] == (if x == "" then name[0] else x[0])
            && all[|all| - 1] == (if y == "" then name[|name| - 1] else y[|y| - 1])
  {
  }

  predicate AllIn(p: char -> bool, s: string) { forall c :: c in s ==> p(c) }

  lemma QuotedEnds(a: Alphabet, quotes: string, name: string, quotes': string)
    requires name != "" && !a.space(name[0]) && !a.space(name[|name| - 1])
    requires AllIn(Quote, quotes) && AllIn(Quote, quotes') && forall c :: Quote(c) ==> !a.space(c)
    ensures var all := quotes + name + quotes'; all != "" && !a.space(all[0]) && !a.space(all[|all| - 1])
  {
    EndsOf(quotes, name, quotes');
    if quotes != "" { assert quotes[0] in quotes; }
    if quotes' != "" { assert quotes'[|quotes'| - 1] in quotes'; }
  }

  /** Blanks go first, then quotes, then a possessive ending, then apostrophes. */
  lemma NameIsStripped(a: Alphabet, blanks: string, quotes: string, name: string, quotes': string, blanks': string)
    requires name != "" && !Quote(name[0]) && !Quote(name[|name| - 1])
    requires !a.space(name[0]) && !a.space(name[|name| - 1])
    requires AllIn(a.space, blanks) && AllIn(a.space, blanks') && AllIn(Quote, quotes) && AllIn(Quote, quotes')
    requires forall c :: Quote(c) ==> !a.space(c)
    ensures Stripped(a, blanks + (quotes + name + quotes') + blanks') ==
      TrimEnd(Apostrophe, if Possessive(a, name) then name[..|name| - 2] else name)
  {
    QuotedEnds(a, quotes, name, quotes');
    var quoted := quotes + name + quotes';
    TrimCuts(a.space, blanks, quoted, blanks');
    assert Trim(a.space, blanks + quoted + blanks') == quoted;
    TrimCuts(Quote, quotes, name, quotes');
    assert Trim(Quote, quoted) == name;
  }

  // ---------------------------------------------------- joined words read back

  function NextWords(l: Letters, ws: seq<string>, open: bool, c: char): seq<string>
    requires open ==> ws != []
  {
    if !l.keep(c) then ws
    else if open then ws[..|ws| - 1] + [ws[|ws| - 1] + [l.fold(c)]]
    else ws + [[l.fold(c)]]
  }

  lemma WordsNext(l: Letters, text: string, c: char)
    ensures Open(l, text) ==> Words(l, text) != []
    ensures Words(l, text + [c]) == NextWords(l, Words(l, text), Open(l, text), c)
    ensures Open(l, text + [c]) <==> l.keep(c)
  {
    TokensNext(l, text, c);
    var ts := Tokens(l, text);
    var now := Next(l, ts, Open(l, text), |text|, c);
    assert Tokens(l, text + [c]) == now;
    forall i | 0 <= i < |now| ensures WordsIn(now)[i] == NextWords(l, WordsIn(ts), Open(l, text), c)[i] {
    }
  }

  lemma WordGrows(ws: seq<string>, w: string, c: char)
    ensures (ws + [w])[..|ws|] + [(ws + [w])[|ws|] + [c]] == ws + [w + [c]]
  {
  }

  lemma {:induction false} LettersAreWord(l: Letters, text: string, w: string)
    requires !Open(l, text) && w != [] && forall i :: 0 <= i < |w| ==> l.keep(w[i]) && l.fold(w[i]) == w[i]
    ensures Words(l, text + w) == Words(l, text) + [w] && Open(l, text + w)
  {
    var rest, c := w[..|w| - 1], w[|w| - 1];
    LastSplit(text, w);
    if rest == [] {
      WordsNext(l, text, c);
      assert text + rest == text;
    } else {
      LettersAreWord(l, text, rest);
      WordsNext(l, text + rest, c);
      WordGrows(Words(l, text), rest, c);
    }
  }

  lemma PaddedNext(l: Letters, text: string, ws: seq<string>, w: string)
    requires Lawful(l) && Words(l, text) == ws && !Open(l, text)
    requires w != [] && forall j :: 0 <= j < |w| ==> l.keep(w[j]) && l.fold(w[j]) == w[j]
    ensures Words(l, text + w + " ") == ws + [w] && !Open(l, text + w + " ")
  {
    LettersAreWord(l, text, w);
    WordsNext(l, text + w, ' ');
  }

  lemma {:induction false} PaddedWords(l: Letters, ws: seq<string>)
    requires Lawful(l) && Wordy(l, ws)
    ensures Words(l, Pad(ws)) == ws && !Open(l, Pad(ws))
  {
    if ws == [] {
      WordsNext(l, "", ' ');
      assert [] + [' '] == Pad(ws);
    } else {
      var rest, w := ws[..|ws| - 1], ws[|ws| - 1];
      assert w != [] && forall j :: 0 <= j < |w| ==> l.keep(w[j]) && l.fold(w[j]) == w[j];
      PaddedWords(l, rest);
      PaddedNext(l, Pad(rest), rest, w);
      assert ws == rest + [w];
    }
  }

  lemma Regroup(joined: string, w: string)
    ensures (" " + joined + " ") + w + " " == " " + (joined + " " + w) + " "
  {
  }

  lemma {:induction false} PadIsJoin(ws: seq<string>)
    requires ws != []
    ensures Pad(ws) == " " + Join(ws) + " "
  {
    var front := ws[..|ws| - 1];
    if front == [] {
      assert Pad(front) == " ";
    } else {
      PadIsJoin(front);
      Regroup(Join(front), ws[|ws| - 1]);
    }
  }

  /** Joining words and reading them again gives the words. */
  lemma JoinedWords(l: Letters, ws: seq<string>)
    requires Lawful(l) && Wordy(l, ws)
    ensures Words(l, Join(ws)) == ws
  {
    if ws != [] {
      PaddedWords(l, ws);
      PadIsJoin(ws);
      BlanksAround(l, Join(ws));
    }
  }

  lemma BlanksAround(l: Letters, text: string)
    requires Lawful(l)
    ensures Words(l, " " + text + " ") == Words(l, text)
  {
    WordsNext(l, " " + text, ' ');
    WordsNext(l, "", ' ');
    assert [] + [' '] == " ";
    TokensJoin(l, " ", text);
    var ts, shifted := Tokens(l, text), Tokens(l, " " + text);
    forall i | 0 <= i < |ts| ensures WordsIn(shifted)[i] == WordsIn(ts)[i] {}
  }

  lemma JoinMore(ws: seq<string>, w: string, c: char)
    ensures Join(ws + [w + [c]]) == Join(ws + [w]) + [c]
    ensures Join(ws + [[c]]) == if ws == [] then [c] else Join(ws) + " " + [c]
  {
    assert (ws + [w + [c]])[..|ws|] == ws && (ws + [w])[..|ws|] == ws && (ws + [[c]])[..|ws|] == ws;
  }

  /** A word that grows by a letter, in the joined words and in the text. */
  lemma GrownReads(a: Alphabet, text: string, front: seq<string>, w: string, c: char)
    requires var was := Join(front + [w]);
             Words(Folding(a), was) == Words(Folding(a), text) && EndsAlike(was, text)
    ensures var now := Join(front + [w + [c]]);
            Words(Folding(a), now) == Words(Folding(a), text + [c]) && EndsAlike(now, text + [c])
  {
    JoinMore(front, w, c);
    SameNext(Folding(a), Join(front + [w]), text, c);
  }

  lemma SameNext(l: Letters, y: string, x: string, c: char)
    requires Words(l, y) == Words(l, x) && EndsAlike(y, x)
    ensures Words(l, y + [c]) == Words(l, x + [c]) && EndsAlike(y + [c], x + [c])
  {
    WordsNext(l, x, c);
    WordsNext(l, y, c);
  }

  /** A word that starts, behind a blank in the joined words. */
  lemma StartedReads(a: Alphabet, text: string, ws: seq<string>, c: char)
    requires Unicode(a) && Words(Folding(a), Join(ws)) == Words(Folding(a), text) && !Open(Folding(a), text)
    ensures var now := Join(ws + [[c]]);
            Words(Folding(a), now) == Words(Folding(a), text + [c]) && EndsAlike(now, text + [c])
  {
    JoinMore(ws, "", c);
    WordsNext(Folding(a), text, c);
    AfterBlank(Folding(a), Join(ws), c);
    assert "" + [c] == [c];
  }

  /** Splitting on white space and joining with blanks keeps the words. */
  lemma {:induction false} CollapseKeepsWords(a: Alphabet, x: string)
    requires Unicode(a)
    ensures Words(Folding(a), Join(Words(Splitting(a), x))) == Words(Folding(a), x)
    ensures Open(Splitting(a), x) ==> EndsAlike(Join(Words(Splitting(a), x)), x)
    decreases |x|
  {
    if x != [] {
      var rest, c := x[..|x| - 1], x[|x| - 1];
      var ws := Words(Splitting(a), rest);
      assert x == rest + [c];
      CollapseKeepsWords(a, rest);
      WordsNext(Splitting(a), rest, c);
      if a.space(c) {
        WordsNext(Folding(a), rest, c);
      } else if Open(Splitting(a), rest) {
        assert ws == ws[..|ws| - 1] + [ws[|ws| - 1]];
        GrownReads(a, rest, ws[..|ws| - 1], ws[|ws| - 1], c);
      } else {
        StartedReads(a, rest, ws, c);
      }
    }
  }

  predicate EndsAlike(y: string, x: string) { y != [] && x != [] && y[|y| - 1] == x[|x| - 1] }

  /** A character that no word precedes joins none. */
  lemma AfterBlank(l: Letters, text: string, c: char)
    requires Lawful(l)
    ensures Words(l, text + " " + [c]) == NextWords(l, Words(l, text), false, c)
    ensures Words(l, "" + [c]) == NextWords(l, [], false, c)
  {
    WordsNext(l, text, ' ');
    WordsNext(l, text + " ", c);
    WordsNext(l, "", c);
  }

  /** A comparison key is the folded words of the stripped name. */
  lemma AliasIsWords(a: Alphabet, text: string)
    requires Unicode(a)
    ensures NormalizeAlias(a, text) == Join(Words(Folding(a), Stripped(a, text)))
  {
    CollapseKeepsWords(a, Stripped(a, text));
  }

  // -------------------------------------------------- texts that are their key

  /** What normalization would cut off the end of a text that ends in a letter. */
  predicate Strippable(a: Alphabet, text: string) {
    Possessive(a, text) || (text != [] && text[|text| - 1] == MODIFIER)
  }

  function Count(l: Letters, text: string): nat {
    if text == [] then 0 else Count(l, text[..|text| - 1]) + if l.keep(text[|text| - 1]) then 1 else 0
  }

  function Size(ws: seq<string>): nat {
    if ws == [] then 0 else Size(ws[..|ws| - 1]) + |ws[|ws| - 1]|
  }

  lemma {:induction false} WordsCount(l: Letters, text: string)
    ensures Size(Words(l, text)) == Count(l, text)
  {
    if text != [] {
      var rest, c := text[..|text| - 1], text[|text| - 1];
      assert text == rest + [c];
      WordsCount(l, rest);
      WordsNext(l, rest, c);
      var ws := Words(l, rest);
      if l.keep(c) {
        if Open(l, rest) {
          assert NextWords(l, ws, true, c)[..|ws| - 1] == ws[..|ws| - 1];
        } else {
          assert NextWords(l, ws, false, c)[..|ws|] == ws;
        }
      }
    }
  }

  lemma {:induction false} CountPrefix(l: Letters, text: string, n: nat)
    requires n < |text| && l.keep(text[|text| - 1])
    ensures Count(l, text[..n]) < Count(l, text)
    decreases |text|
  {
    var rest := text[..|text| - 1];
    if n < |rest| {
      assert rest[..n] == text[..n];
      CountAtMost(l, rest, n);
    } else {
      assert text[..n] == rest;
    }
  }

  lemma {:induction false} CountAtMost(l: Letters, text: string, n: nat)
    requires n <= |text|
    ensures Count(l, text[..n]) <= Count(l, text)
    decreases |text|
  {
    if n < |text| {
      assert text[..|text| - 1][..n] == text[..n];
      CountAtMost(l, text[..|text| - 1], n);
    } else {
      assert text[..n] == text;
    }
  }

  lemma TrimPlain(p: char -> bool, text: string)
    requires text != [] && !p(text[0]) && !p(text[|text| - 1])
    ensures Trim(p, text) == text
  {
  }

  lemma StrippedPlain(a: Alphabet, text: string)
    requires Unicode(a) && text != [] && a.alnum(text[0]) && a.alnum(text[|text| - 1])
    ensures Stripped(a, text) <= text
    ensures Stripped(a, text) == text <==> !Strippable(a, text)
  {
    TrimPlain(a.space, text);
    TrimPlain(Quote, text);
    var cut := if Possessive(a, text) then text[..|text| - 2] else text;
    assert cut <= text;
  }

  /** A text that starts and ends with a letter normalizes to its own words exactly when it
      has no ending that normalization strips. */
  lemma PlainKeyExactlyWhen(a: Alphabet, text: string)
    requires Unicode(a) && text != [] && a.alnum(text[0]) && a.alnum(text[|text| - 1])
    ensures NormalizeAlias(a, text) == Join(Words(Folding(a), text)) <==> !Strippable(a, text)
  {
    var l, cut := Folding(a), Stripped(a, text);
    AliasIsWords(a, text);
    StrippedPlain(a, text);
    if cut != text { FewerLetters(l, cut, text); }
  }

  /** Cutting off a letter changes the words. */
  lemma FewerLetters(l: Letters, cut: string, text: string)
    requires Lawful(l) && cut < text && l.keep(text[|text| - 1])
    ensures Join(Words(l, cut)) != Join(Words(l, text))
  {
    assert cut == text[..|cut|];
    CountPrefix(l, text, |cut|);
    WordsCount(l, text);
    WordsCount(l, cut);
    TokensWordy(l, text);
    TokensWordy(l, cut);
    JoinedWords(l, Words(l, text));
    JoinedWords(l, Words(l, cut));
  }

  lemma JoinEnds(l: Letters, ws: seq<string>)
    requires Lawful(l) && Wordy(l, ws) && ws != []
    ensures Join(ws) != [] && l.keep(Join(ws)[0]) && l.keep(Join(ws)[|Join(ws)| - 1])
    decreases |ws|
  {
    assert ws[|ws| - 1] != [];
    if |ws| > 1 {
      JoinEnds(l, ws[..|ws| - 1]);
    }
  }

  /** A key is its own key exactly when it has no ending that normalization strips. */
  lemma KeyIsFixedExactlyWhen(a: Alphabet, text: string)
    requires Unicode(a)
    ensures var key := NormalizeAlias(a, text); NormalizeAlias(a, key) == key <==> !Strippable(a, key)
  {
    var l, ws := Folding(a), Words(Folding(a), Stripped(a, text));
    AliasIsWords(a, text);
    TokensWordy(l, Stripped(a, text));
    if ws == [] {
      assert Stripped(a, "") == "";
      AliasIsWords(a, "");
    } else {
      JoinEnds(l, ws);
      JoinedWords(l, ws);
      PlainKeyExactlyWhen(a, Join(ws));
    }
  }

  /** A single folded word reads as itself. */
  lemma WordReads(l: Letters, word: string)
    requires word != [] && forall i :: 0 <= i < |word| ==> l.keep(word[i]) && l.fold(word[i]) == word[i]
    ensures Join(Words(l, word)) == word
  {
    LettersAreWord(l, "", word);
    assert "" + word == word && Words(l, "") == [];
    assert Words(l, word) == [word] && Join([word]) == word;
  }

  lemma PrefixReads(l: Letters, text: string, n: nat)
    requires 0 < n <= |text| && forall i :: 0 <= i < n ==> l.keep(text[i]) && l.fold(text[i]) == text[i]
    ensures Join(Words(l, text[..n])) == text[..n]
  {
    WordReads(l, text[..n]);
  }

  /** The spelling "a", U+02BC, "s", and then a possessive. */
  predicate DoublyPossessive(text: string) {
    |text| == 5 && text[0] == 'a' && text[1] == MODIFIER && text[2] == 's' && text[3] == '\'' && text[4] == 's'
  }

  lemma StrippedExample(a: Alphabet, text: string)
    requires Unicode(a) && a.alnum('a') && DoublyPossessive(text)
    ensures Stripped(a, text) == text[..3]
  {
    assert Trim(a.space, text) == text && Trim(Quote, text) == text;
    assert Possessive(a, text) && TrimEnd(Apostrophe, text[..3]) == text[..3];
  }

  lemma ExampleLetters(a: Alphabet, text: string)
    requires Unicode(a) && a.alnum('a') && a.lower('a') == 'a' && DoublyPossessive(text)
    ensures forall i :: 0 <= i < 3 ==> a.alnum(text[i]) && a.lower(text[i]) == text[i]
  {
    forall i | 0 <= i < 3 ensures a.alnum(text[i]) && a.lower(text[i]) == text[i] {
      assert i == 0 || i == 1 || i == 2;
    }
  }

  lemma KeyOfExample(a: Alphabet, text: string)
    requires Unicode(a) && a.alnum('a') && a.lower('a') == 'a' && DoublyPossessive(text)
    ensures NormalizeAlias(a, text) == text[..3]
  {
    ExampleLetters(a, text);
    PrefixReads(Folding(a), text, 3);
    StrippedExample(a, text);
    AliasIsWords(a, text);
  }

  /** A name whose key is not its own key: only one possessive is stripped at a time, and the
      inner apostrophe counts as a letter. */
  lemma KeyNotFixed(a: Alphabet, text: string)
    requires Unicode(a) && a.alnum('a') && a.lower('a') == 'a' && DoublyPossessive(text)
    ensures NormalizeAlias(a, NormalizeAlias(a, text)) != NormalizeAlias(a, text)
  {
    KeyOfExample(a, text);
    KeyIsFixedExactlyWhen(a, text);
  }
}
