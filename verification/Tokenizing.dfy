/** Words of a text and where they came from.

    A text is read one character at a time.  Kept characters are folded and make up words; every
    other character ends the word before it.  `Tokens` says which words a text has and where
    each begins, `Words` only which, and `Pad` is the form in which whole words are searched:
    each between two blanks. */
module Tokenizing {
  /** Which characters are kept, and how each is folded; every other one separates words. */
  datatype Letters = Letters(keep: char -> bool, fold: char -> char)

  /** Folding is idempotent and keeps letters letters; a blank is no letter. */
  ghost predicate Lawful(l: Letters) {
    && !l.keep(' ')
    && (forall c {:trigger l.keep(l.fold(c))} :: l.keep(c) ==> l.keep(l.fold(c)))
    && (forall c {:trigger l.fold(l.fold(c))} :: l.keep(c) ==> l.fold(l.fold(c)) == l.fold(c))
  }

  /** A word and the place of its first character. */
  datatype Token = Token(word: string, start: nat) {
    function End(): nat { start + |word| }
  }

  predicate Open(l: Letters, text: string) { text != [] && l.keep(text[|text| - 1]) }

  /** One more character after `n`: `open` tells whether the last word ends there. */
  function Next(l: Letters, ts: seq<Token>, open: bool, n: nat, c: char): seq<Token>
    requires open ==> ts != []
  {
    if !l.keep(c) then ts
    else if open then ts[..|ts| - 1] + [Token(ts[|ts| - 1].word + [l.fold(c)], ts[|ts| - 1].start)]
    else ts + [Token([l.fold(c)], n)]
  }

  /** The maximal stretches of letters, in order. */
  function Tokens(l: Letters, text: string): (r: seq<Token>)
    ensures Open(l, text) ==> r != [] && r[|r| - 1].End() == |text| && r[|r| - 1].word != []
  {
    if text == [] then []
    else
      var rest := text[..|text| - 1];
      Next(l, Tokens(l, rest), Open(l, rest), |rest|, text[|text| - 1])
  }

  function WordsIn(ts: seq<Token>): (r: seq<string>)
    ensures |r| == |ts|
    ensures forall i :: 0 <= i < |ts| ==> r[i] == ts[i].word
  {
    if ts == [] then [] else WordsIn(ts[..|ts| - 1]) + [ts[|ts| - 1].word]
  }

  function Words(l: Letters, text: string): seq<string> { WordsIn(Tokens(l, text)) }

  /** The words, a blank before and after each. */
  function Pad(ws: seq<string>): (r: string)
    ensures r != [] && r[|r| - 1] == ' ' && r[0] == ' '
  {
    if ws == [] then " " else Pad(ws[..|ws| - 1]) + ws[|ws| - 1] + " "
  }

  /** Where word `k` is preceded by its blank; for `k == |ws|`, the last blank. */
  function At(ws: seq<string>, k: nat): nat
    requires k <= |ws|
  {
    |Pad(ws[..k])| - 1
  }

  /** A list of nonempty words made of letters. */
  ghost predicate Wordy(l: Letters, ws: seq<string>) {
    forall i :: 0 <= i < |ws| ==> ws[i] != [] && forall j :: 0 <= j < |ws[i]| ==>
      l.keep(ws[i][j]) && l.fold(ws[i][j]) == ws[i][j]
  }

  lemma {:induction false} TokensWordy(l: Letters, text: string)
    requires Lawful(l)
    ensures Wordy(l, Words(l, text))
  {
    if text != [] {
      TokensWordy(l, text[..|text| - 1]);
      var before, now := Tokens(l, text[..|text| - 1]), Tokens(l, text);
      assert Wordy(l, WordsIn(before));
      forall i | 0 <= i < |now| ensures now[i].word != [] && forall j :: 0 <= j < |now[i].word| ==>
        l.keep(now[i].word[j]) && l.fold(now[i].word[j]) == now[i].word[j] {
        if i < |before| { assert WordsIn(before)[i] == before[i].word; }
      }
    }
  }

  // ------------------------------------------------- words of joined texts

  function Shifted(ts: seq<Token>, offset: nat): (r: seq<Token>)
    ensures |r| == |ts|
    ensures forall i :: 0 <= i < |ts| ==> r[i] == Token(ts[i].word, ts[i].start + offset)
  {
    if ts == [] then [] else Shifted(ts[..|ts| - 1], offset) + [Token(ts[|ts| - 1].word, ts[|ts| - 1].start + offset)]
  }

  lemma NextShifted(l: Letters, first: seq<Token>, ts: seq<Token>, open: bool, n: nat, offset: nat, c: char)
    requires open ==> ts != []
    ensures Next(l, first + Shifted(ts, offset), open, offset + n, c) == first
            + Shifted(Next(l, ts, open, n, c), offset)
  {
    if l.keep(c) {
      if open {
        assert (first + Shifted(ts, offset))[..|first| + |ts| - 1] == first + Shifted(ts[..|ts| - 1], offset);
        assert Next(l, ts, open, n, c)[..|ts| - 1] == ts[..|ts| - 1];
      } else {
        assert (ts + [Token([l.fold(c)], n)])[..|ts|] == ts;
      }
    }
  }

  lemma TokensNext(l: Letters, text: string, c: char)
    ensures Tokens(l, text + [c]) == Next(l, Tokens(l, text), Open(l, text), |text|, c)
    ensures Open(l, text + [c]) <==> l.keep(c)
  {
    assert (text + [c])[..|text|] == text;
  }

  lemma LastSplit(a: string, b: string)
    requires b != []
    ensures b == b[..|b| - 1] + [b[|b| - 1]] && a + b == a + b[..|b| - 1] + [b[|b| - 1]]
  {
  }

  lemma JoinNext(l: Letters, a: string, b: string, c: char)
    requires Tokens(l, a + b) == Tokens(l, a) + Shifted(Tokens(l, b), |a|) && (Open(l, a + b) <==> Open(l, b))
    ensures Tokens(l, a + b + [c]) == Tokens(l, a) + Shifted(Tokens(l, b + [c]), |a|)
    ensures Open(l, a + b + [c]) <==> Open(l, b + [c])
  {
    TokensNext(l, a + b, c);
    TokensNext(l, b, c);
    NextShifted(l, Tokens(l, a), Tokens(l, b), Open(l, b), |b|, |a|, c);
  }

  /** Text after a separator is read as if it stood alone. */
  lemma {:induction false} TokensJoin(l: Letters, a: string, b: string)
    requires !Open(l, a)
    ensures Tokens(l, a + b) == Tokens(l, a) + Shifted(Tokens(l, b), |a|)
    ensures Open(l, a + b) <==> Open(l, b)
  {
    if b == [] {
      assert a + b == a;
    } else {
      TokensJoin(l, a, b[..|b| - 1]);
      JoinNext(l, a, b[..|b| - 1], b[|b| - 1]);
      LastSplit(a, b);
    }
  }

  /** Only the last word can still grow. */
  lemma NextKeeps(l: Letters, ts: seq<Token>, open: bool, n: nat, c: char, k: nat)
    requires k < |ts|
    ensures |Next(l, ts, open, n, c)| >= |ts| && Next(l, ts, open, n, c)[..k] == ts[..k]
            && Next(l, ts, open, n, c)[k].start == ts[k].start
    ensures !l.keep(c) || !open || k < |ts| - 1 ==>
            Next(l, ts, open, n, c)[k] == ts[k] && Next(l, ts, open, n, c)[..k + 1] == ts[..k + 1]
    ensures l.keep(c) && open && k == |ts| - 1 ==>
            |Next(l, ts, open, n, c)| == |ts| && |Next(l, ts, open, n, c)[k].word| == |ts[k].word| + 1
  {
  }

  /** What is read up to the start of a word, and up to its end. */
  ghost predicate CutsAt(l: Letters, text: string, ts: seq<Token>, k: nat)
    requires k < |ts|
  {
    && ts[k].start < ts[k].End() <= |text|
    && Tokens(l, text[..ts[k].start]) == ts[..k] && !Open(l, text[..ts[k].start])
    && Tokens(l, text[..ts[k].End()]) == ts[..k + 1]
  }

  lemma {:induction false} TokenCuts(l: Letters, text: string, k: nat)
    requires k < |Tokens(l, text)|
    ensures CutsAt(l, text, Tokens(l, text), k)
  {
    var rest, c := text[..|text| - 1], text[|text| - 1];
    var before, now := Tokens(l, rest), Tokens(l, text);
    WholePrefix(text);
    if k < |before| {
      TokenCuts(l, rest, k);
      NextKeeps(l, before, Open(l, rest), |rest|, c, k);
      PrefixOfPrefix(text, before[k].start, |text| - 1);
      if l.keep(c) && Open(l, rest) && k == |before| - 1 {
        assert now[k].End() == |text| && now[..k + 1] == now;
      } else {
        PrefixOfPrefix(text, before[k].End(), |text| - 1);
      }
    } else {
      assert now[..k] == before && now[..k + 1] == now;
    }
  }

  lemma WholePrefix(text: string)
    ensures text[..|text|] == text
  {
  }

  lemma PrefixOfPrefix(text: string, i: nat, j: nat)
    requires i <= j <= |text|
    ensures text[..j][..i] == text[..i]
  {
  }

  lemma WordsAfter(l: Letters, a: string, b: string, ts: seq<Token>, k: nat, j: nat)
    requires k <= j < |ts| && !Open(l, a) && Tokens(l, a) == ts[..k] && Tokens(l, a + b) == ts[..j + 1]
    ensures |Words(l, b)| == j + 1 - k
    ensures forall i :: 0 <= i <= j - k ==> Words(l, b)[i] == ts[k + i].word
  {
    TokensJoin(l, a, b);
    var shifted := Shifted(Tokens(l, b), |a|);
    assert |ts[..j + 1]| == k + |shifted|;
    forall i | 0 <= i <= j - k ensures shifted[i] == ts[k + i] {
      assert (ts[..k] + shifted)[k + i] == ts[..j + 1][k + i];
    }
  }

  /** The text from `start` to `end`. */
  function Cut(text: string, start: nat, end: nat): (r: string)
    requires start <= end <= |text|
    ensures |r| == end - start
    ensures forall i :: 0 <= i < |r| ==> r[i] == text[start + i]
    decreases end
  {
    if start == end then "" else Cut(text, start, end - 1) + [text[end - 1]]
  }

  /** The text from one word to a later one has exactly those words. */
  lemma SliceWords(l: Letters, text: string, k: nat, j: nat)
    requires k <= j < |Tokens(l, text)|
    ensures Tokens(l, text)[k].start < Tokens(l, text)[j].End() <= |text|
    ensures var slice := Cut(text, Tokens(l, text)[k].start, Tokens(l, text)[j].End());
            |Words(l, slice)| == j + 1 - k && forall i :: 0 <= i <= j - k ==>
              Words(l, slice)[i] == Words(l, text)[k + i]
  {
    var ts := Tokens(l, text);
    TokenCuts(l, text, k);
    TokenCuts(l, text, j);
    TokensOrdered(l, text, k, j);
    CutJoins(text, ts[k].start, ts[j].End());
    WordsAfter(l, text[..ts[k].start], Cut(text, ts[k].start, ts[j].End()), ts, k, j);
  }

  lemma CutJoins(text: string, start: nat, end: nat)
    requires start <= end <= |text|
    ensures text[..start] + Cut(text, start, end) == text[..end]
  {
  }

  lemma TokensOrdered(l: Letters, text: string, k: nat, j: nat)
    requires k <= j < |Tokens(l, text)|
    ensures Tokens(l, text)[k].start <= Tokens(l, text)[j].start
  {
    if k < j {
      var ts := Tokens(l, text);
      TokenCuts(l, text, j);
      var rest := text[..ts[j].start];
      assert Tokens(l, rest)[k] == ts[k];
      TokenCuts(l, rest, k);
    }
  }
}
