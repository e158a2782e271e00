/** Stable sorting by a comparison, as the library sort that the program calls.

    Insertion is enough to say what a stable sort returns: a sorted list with the same elements,
    those that tie in their old order. */
module Sorting {
  function Insert<T>(leq: (T, T) -> bool, x: T, s: seq<T>): seq<T> {
    if s == [] || leq(x, s[0]) then [x] + s else [s[0]] + Insert(leq, x, s[1..])
  }

  function Sort<T>(leq: (T, T) -> bool, s: seq<T>): seq<T> {
    if s == [] then [] else Insert(leq, s[0], Sort(leq, s[1..]))
  }

  ghost predicate Ordering<T(!new)>(leq: (T, T) -> bool) {
    && (forall x, y :: leq(x, y) || leq(y, x))
    && (forall x, y, z :: leq(x, y) && leq(y, z) ==> leq(x, z))
  }

  ghost predicate Sorted<T>(leq: (T, T) -> bool, s: seq<T>) {
    forall i, j :: 0 <= i < j < |s| ==> leq(s[i], s[j])
  }

  lemma {:induction false} InsertKeeps<T>(leq: (T, T) -> bool, x: T, s: seq<T>)
    ensures multiset(Insert(leq, x, s)) == multiset(s)[x := multiset(s)[x] + 1]
  {
    if s != [] && !leq(x, s[0]) {
      InsertKeeps(leq, x, s[1..]);
      assert s == [s[0]] + s[1..];
    }
  }

  lemma {:induction false} InsertSorts<T(!new)>(leq: (T, T) -> bool, x: T, s: seq<T>)
    requires Ordering(leq) && Sorted(leq, s)
    ensures Sorted(leq, Insert(leq, x, s))
  {
    if s != [] && !leq(x, s[0]) {
      InsertSorts(leq, x, s[1..]);
      var rest := Insert(leq, x, s[1..]);
      forall k | 0 <= k < |rest| ensures leq(s[0], rest[k]) {
        InsertKeeps(leq, x, s[1..]);
        assert rest[k] in multiset(rest);
        assert rest[k] == x || rest[k] in multiset(s[1..]);
      }
    }
  }

  lemma {:induction false} SortSorts<T(!new)>(leq: (T, T) -> bool, s: seq<T>)
    requires Ordering(leq)
    ensures Sorted(leq, Sort(leq, s)) && multiset(Sort(leq, s)) == multiset(s) && |Sort(leq, s)| == |s|
  {
    if s != [] {
      SortSorts(leq, s[1..]);
      InsertSorts(leq, s[0], Sort(leq, s[1..]));
      InsertKeeps(leq, s[0], Sort(leq, s[1..]));
      assert s == [s[0]] + s[1..];
      assert |multiset(Sort(leq, s))| == |multiset(s)|;
    }
  }

  /** Sorting loses and invents nothing. */
  lemma SortKeeps<T(!new)>(leq: (T, T) -> bool, s: seq<T>, x: T)
    requires Ordering(leq)
    ensures x in Sort(leq, s) <==> x in s
  {
    SortSorts(leq, s);
    assert x in multiset(s) <==> x in s;
    assert x in multiset(Sort(leq, s)) <==> x in Sort(leq, s);
  }
}
