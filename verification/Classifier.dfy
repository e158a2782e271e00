/** Classification batches, and the receipt of the answers they get. */
module Classifier {
  datatype Result<+T> = Ok(value: T) | Err

  /** One answered row. */
  datatype Row = Row(id: string, category: string)

  function Count(rows: seq<Row>, id: string): nat {
    if rows == [] then 0 else Count(rows[..|rows| - 1], id) + if rows[|rows| - 1].id == id then 1 else 0
  }

  /** The places of the rows with this id. */
  function Places(rows: seq<Row>, id: string): set<nat> { set i: nat | i < |rows| && rows[i].id == id }

  lemma {:induction false} CountIs(rows: seq<Row>, id: string)
    ensures Count(rows, id) == |Places(rows, id)|
  {
    if rows != [] {
      var front, n := rows[..|rows| - 1], |rows| - 1;
      CountIs(front, id);
      if rows[n].id == id {
        assert Places(rows, id) == Places(front, id) + {n};
      } else {
        assert Places(rows, id) == Places(front, id);
      }
    }
  }

  /** The row answers a waiting article, alone, with a category there is. */
  predicate Usable(articles: seq<string>, categories: set<string>, valid: map<string, string>, rows: seq<Row>,
      row: Row) {
    row.id in articles && row.id !in valid && Count(rows, row.id) == 1 && row.category in categories
  }

  /** The receipt after the first `n` rows of an answer. */
  function Admitted(articles: seq<string>, categories: set<string>, valid: map<string, string>,
      rows: seq<Row>, n: nat): map<string, string>
    requires n <= |rows|
  {
    if n == 0 then valid
    else
      var before := Admitted(articles, categories, valid, rows, n - 1);
      if Usable(articles, categories, valid, rows, rows[n - 1]) then before[rows[n - 1].id := rows[n - 1].category]
        else before
  }

  function Pending(articles: seq<string>, valid: map<string, string>): seq<string> {
    if articles == [] then []
    else Pending(articles[..|articles| - 1], valid) + if articles[|articles| - 1] in valid then []
      else [articles[|articles| - 1]]
  }

  lemma {:induction false} PendingHas(articles: seq<string>, valid: map<string, string>, id: string)
    ensures id in Pending(articles, valid) <==> id in articles && id !in valid
  {
    if articles != [] {
      PendingHas(articles[..|articles| - 1], valid, id);
      assert articles == articles[..|articles| - 1] + [articles[|articles| - 1]];
    }
  }

  lemma PendingIs(articles: seq<string>, valid: map<string, string>)
    ensures forall id :: id in Pending(articles, valid) <==> id in articles && id !in valid
    ensures Pending(articles, valid) == [] <==> forall id :: id in articles ==> id in valid
  {
    forall id ensures id in Pending(articles, valid) <==> id in articles && id !in valid {
      PendingHas(articles, valid, id);
    }
    var pending := Pending(articles, valid);
    if pending != [] { assert pending[0] in pending; }
  }

  class BatchAdapter {
    const articles: seq<string>
    const categories: set<string>
    var valid: map<string, string>

    constructor (articles: seq<string>, categories: set<string>)
      ensures this.articles == articles && this.categories == categories && valid == map[]
    {
      this.articles, this.categories, valid := articles, categories, map[];
    }

    /** Takes what an answer settles; succeeds when it is clean and nothing is left. */
    method Accept(rows: seq<Row>) returns (r: Result<map<string, string>>)
      modifies this
      ensures valid == Admitted(articles, categories, old(valid), rows, |rows|)
      ensures r.Ok? <==>
              (forall i :: 0 <= i < |rows| ==> Usable(articles, categories, old(valid), rows, rows[i]))
              && |valid| == |articles|
      ensures r.Ok? ==> r.value == valid
    {
      var pending := Pending(articles, valid);
      PendingIs(articles, valid);
      ghost var before := valid;
      var invalid := false;
      for i := 0 to |rows|
        invariant valid == Admitted(articles, categories, before, rows, i)
        invariant invalid <==> exists j :: 0 <= j < i && !Usable(articles, categories, before, rows, rows[j])
      {
        if rows[i].id !in pending || Count(rows, rows[i].id) != 1 || rows[i].category !in categories {
          invalid := true;
          continue;
        }
        valid := valid[rows[i].id := rows[i].category];
      }
      r := if invalid || |valid| != |articles| then Err else Ok(valid);
    }
  }

  lemma {:induction false} CountSeen(rows: seq<Row>, i: nat, j: nat)
    requires i < j < |rows| && rows[i].id == rows[j].id
    ensures Count(rows, rows[i].id) >= 2
    decreases |rows|
  {
    if j < |rows| - 1 {
      CountSeen(rows[..|rows| - 1], i, j);
    } else {
      CountOnce(rows[..|rows| - 1], i);
    }
  }

  lemma {:induction false} CountOnce(rows: seq<Row>, i: nat)
    requires i < |rows|
    ensures Count(rows, rows[i].id) >= 1
    decreases |rows|
  {
    if i < |rows| - 1 {
      CountOnce(rows[..|rows| - 1], i);
    }
  }

  /** What one answer changes: exactly the usable rows are added, each with its category;
      nothing accepted before is touched. */
  lemma {:induction false} AdmittedIs(articles: seq<string>, categories: set<string>,
      valid: map<string, string>, rows: seq<Row>, n: nat)
    requires n <= |rows|
    ensures var now := Admitted(articles, categories, valid, rows, n);
            && (forall id :: id in valid ==> id in now && now[id] == valid[id])
            && (forall i :: 0 <= i < n && Usable(articles, categories, valid, rows, rows[i]) ==>
                  rows[i].id in now && now[rows[i].id] == rows[i].category)
            && (forall id :: id in now ==>
                  id in valid ||
                  exists i :: 0 <= i < n && rows[i].id == id && Usable(articles, categories, valid, rows, rows[i]))
  {
    if n > 0 {
      AdmittedIs(articles, categories, valid, rows, n - 1);
      var row := rows[n - 1];
      if Usable(articles, categories, valid, rows, row) {
        forall i | 0 <= i < n - 1 && Usable(articles, categories, valid, rows, rows[i]) ensures rows[i].id != row.id {
          if rows[i].id == row.id { CountSeen(rows, i, n - 1); }
        }
      }
    }
  }

  /** The receipt after several answers. */
  function Receipt(articles: seq<string>, categories: set<string>, answers: seq<seq<Row>>): map<string, string> {
    if answers == [] then map[]
    else
      var rows := answers[|answers| - 1];
      Admitted(articles, categories, Receipt(articles, categories, answers[..|answers| - 1]), rows, |rows|)
  }

  /** The receipt names only the batch's articles, with categories there are. */
  lemma {:induction false} ReceiptIsSound(articles: seq<string>, categories: set<string>, answers: seq<seq<Row>>)
    ensures forall id :: id in Receipt(articles, categories, answers) ==>
            id in articles && Receipt(articles, categories, answers)[id] in categories
  {
    if answers != [] {
      var rows := answers[|answers| - 1];
      var before := Receipt(articles, categories, answers[..|answers| - 1]);
      ReceiptIsSound(articles, categories, answers[..|answers| - 1]);
      AdmittedIs(articles, categories, before, rows, |rows|);
      forall id | id in Receipt(articles, categories, answers)
        ensures id in articles && Receipt(articles, categories, answers)[id] in categories
      {
        if id !in before {
          var i :| 0 <= i < |rows| && rows[i].id == id && Usable(articles, categories, before, rows, rows[i]);
        }
      }
    }
  }

  /** Whatever the first `k` answers settled stays settled the same way. */
  lemma {:induction false} ReceiptOnlyGrows(articles: seq<string>, categories: set<string>,
      answers: seq<seq<Row>>, k: nat)
    requires k <= |answers|
    ensures var first, now := Receipt(articles, categories, answers[..k]), Receipt(articles, categories, answers);
            forall id :: id in first ==> id in now && now[id] == first[id]
    decreases |answers|
  {
    if k < |answers| {
      var before := answers[..|answers| - 1];
      assert before[..k] == answers[..k];
      ReceiptOnlyGrows(articles, categories, before, k);
      AdmittedIs(articles, categories, Receipt(articles, categories, before), answers[|answers| - 1],
        |answers[|answers| - 1]|);
    } else {
      assert answers[..k] == answers;
    }
  }

  predicate Distinct(articles: seq<string>) {
    forall i, j :: 0 <= i < j < |articles| ==> articles[i] != articles[j]
  }

  function IdSet(articles: seq<string>): set<string> { set id | id in articles }

  lemma {:induction false} IdSetSize(articles: seq<string>)
    ensures |IdSet(articles)| <= |articles|
    ensures |IdSet(articles)| == |articles| <==> Distinct(articles)
  {
    if articles != [] {
      var rest, last := articles[..|articles| - 1], articles[|articles| - 1];
      IdSetSize(rest);
      assert IdSet(articles) == IdSet(rest) + {last};
      assert Distinct(articles) <==> Distinct(rest) && last !in rest;
    }
  }

  /** A receipt is as long as the batch exactly when every article is settled and none is
      listed twice. */
  lemma FullExactlyWhen(articles: seq<string>, valid: map<string, string>)
    requires forall id :: id in valid ==> id in articles
    ensures |valid| == |articles| <==> Pending(articles, valid) == [] && Distinct(articles)
  {
    PendingIs(articles, valid);
    IdSetSize(articles);
    assert valid.Keys <= IdSet(articles);
    if Pending(articles, valid) == [] {
      assert valid.Keys == IdSet(articles);
    }
    if |valid| == |articles| {
      SubsetOfSameSize(valid.Keys, IdSet(articles));
      assert forall id :: id in articles ==> id in valid.Keys;
    }
  }

  lemma SubsetOfSameSize(a: set<string>, b: set<string>)
    requires a <= b && |a| >= |b|
    ensures a == b
  {
    assert b == a + (b - a);
  }

  /** An answer succeeds exactly when each of its rows is usable, it leaves nothing pending,
      and the batch lists no article twice; a batch that does can never succeed. */
  lemma SucceedsExactlyWhen(articles: seq<string>, categories: set<string>, answers: seq<seq<Row>>, rows: seq<Row>)
    ensures var before, now := Receipt(articles, categories, answers), Receipt(articles, categories, answers + [rows]);
            (forall i :: 0 <= i < |rows| ==> Usable(articles, categories, before, rows, rows[i]))
              && |now| == |articles| <==>
            (forall i :: 0 <= i < |rows| ==> Usable(articles, categories, before, rows, rows[i]))
              && Pending(articles, now) == [] && Distinct(articles)
  {
    ReceiptIsSound(articles, categories, answers + [rows]);
    FullExactlyWhen(articles, Receipt(articles, categories, answers + [rows]));
  }

  /** Several answers to one adapter, as the retries bring them. */
  method Retry(articles: seq<string>, categories: set<string>,
      answers: seq<seq<Row>>) returns (valid: map<string, string>)
    ensures valid == Receipt(articles, categories, answers)
  {
    var adapter := new BatchAdapter(articles, categories);
    for i := 0 to |answers|
      invariant fresh(adapter) && adapter.articles == articles && adapter.categories == categories
      invariant adapter.valid == Receipt(articles, categories, answers[..i])
    {
      assert answers[..i + 1][..i] == answers[..i];
      var _ := adapter.Accept(answers[i]);
    }
    assert answers[..|answers|] == answers;
    valid := adapter.valid;
  }

  // ------------------------------------------------------------------ batches

  const BATCH_SIZE: nat := 8
  const REQUEST_BYTES: nat := 32 * 1024

  function Flatten<T>(batches: seq<seq<T>>): seq<T> {
    if batches == [] then [] else Flatten(batches[..|batches| - 1]) + batches[|batches| - 1]
  }

  /** Every batch is as the limits allow, at each of its steps. */
  ghost predicate Fits<T(!new)>(batch: seq<T>, size: seq<T> -> nat) {
    && 1 <= |batch| <= BATCH_SIZE
    && forall n :: 2 <= n <= |batch| ==> size(batch[..n]) <= REQUEST_BYTES
  }

  /** No room for one more article. */
  ghost predicate Full<T(!new)>(batch: seq<T>, next: T, size: seq<T> -> nat) {
    |batch| == BATCH_SIZE || size(batch + [next]) > REQUEST_BYTES
  }

  /** Batch `i` had no room for the article that follows it. */
  ghost predicate Stops<T(!new)>(batches: seq<seq<T>>, i: nat, size: seq<T> -> nat) {
    i + 1 < |batches| && batches[i + 1] != [] && Full(batches[i], batches[i + 1][0], size)
  }

  /** A cut in which each batch takes as many of the following articles as the limits allow. */
  ghost predicate Greedy<T(!new)>(batches: seq<seq<T>>, size: seq<T> -> nat) {
    && (forall i :: 0 <= i < |batches| ==> Fits(batches[i], size))
    && (forall i :: 0 <= i < |batches| - 1 ==> Stops(batches, i, size))
  }

  /** A batch has one to eight articles and stays within 32 KiB at each step beyond one article;
      one that is followed by another is full. */
  lemma GreedyLimits<T(!new)>(batches: seq<seq<T>>, size: seq<T> -> nat)
    ensures Greedy(batches, size) <==>
      && (forall i :: 0 <= i < |batches| ==> 1 <= |batches[i]| <= 8)
      && (forall i, n :: 0 <= i < |batches| && 2 <= n <= |batches[i]| ==> size(batches[i][..n]) <= 32768)
      && (forall i :: 0 <= i < |batches| - 1 ==> |batches[i]| == 8 || size(batches[i] + [batches[i + 1][0]]) > 32768)
  {
    if Greedy(batches, size) {
      forall i | 0 <= i < |batches| - 1
        ensures |batches[i]| == 8 || size(batches[i] + [batches[i + 1][0]]) > 32768
      {
        assert Stops(batches, i, size) && Fits(batches[i + 1], size);
      }
      forall i, n | 0 <= i < |batches| && 2 <= n <= |batches[i]| ensures size(batches[i][..n]) <= 32768 {
        assert Fits(batches[i], size);
      }
    }
  }

  lemma FitsMore<T(!new)>(batch: seq<T>, next: T, size: seq<T> -> nat)
    requires Fits(batch, size) && !Full(batch, next, size)
    ensures Fits(batch + [next], size)
  {
    forall n | 2 <= n <= |batch| + 1 ensures size((batch + [next])[..n]) <= REQUEST_BYTES {
      if n <= |batch| {
        assert (batch + [next])[..n] == batch[..n];
      } else {
        assert (batch + [next])[..n] == batch + [next];
      }
    }
  }

  /** Cuts articles into batches. */
  method BatchesForModel<T(!new)>(articles: seq<T>, size: seq<T> -> nat) returns (batches: seq<seq<T>>)
    ensures Flatten(batches) == articles
    ensures Greedy(batches, size)
  {
    batches := [];
    var current: seq<T> := [];
    for i := 0 to |articles|
      invariant Flatten(batches) + current == articles[..i]
      invariant Greedy(batches, size)
      invariant i == 0 <==> current == []
      invariant current != [] ==> Greedy(batches + [current], size)
      invariant current == [] ==> batches == []
    {
      batches, current := Put(batches, current, articles[i], size, articles[..i]);
      assert articles[..i + 1] == articles[..i] + [articles[i]];
    }
    assert articles[..|articles|] == articles;
    if current != [] {
      assert (batches + [current])[..|batches|] == batches;
      batches := batches + [current];
    }
  }

  /** One article: it joins the current batch or starts the next. */
  method Put<T(!new)>(batches: seq<seq<T>>, current: seq<T>, article: T, size: seq<T> -> nat,
      ghost before: seq<T>) returns (more: seq<seq<T>>, now: seq<T>)
    requires Flatten(batches) + current == before && Greedy(batches, size)
    requires current != [] ==> Greedy(batches + [current], size)
    requires current == [] ==> batches == []
    ensures Flatten(more) + now == before + [article] && Greedy(more, size) && now != [] && Greedy(more + [now], size)
  {
    if current != [] && (|current| == BATCH_SIZE || size(current + [article]) > REQUEST_BYTES) {
      StartNext(batches, current, article, size);
      assert (batches + [current])[..|batches|] == batches;
      return batches + [current], [article];
    }
    more, now := batches, current + [article];
    if current == [] {
      assert [article] == now && more + [now] == [now];
      assert Fits(now, size);
    } else {
      GrowLast(batches, current, article, size);
    }
  }

  lemma StartNext<T(!new)>(batches: seq<seq<T>>, current: seq<T>, article: T, size: seq<T> -> nat)
    requires Greedy(batches + [current], size) && Full(current, article, size)
    ensures Greedy(batches + [current] + [[article]], size)
  {
    var cut := batches + [current] + [[article]];
    forall i | 0 <= i < |cut| ensures Fits(cut[i], size) {
      if i <= |batches| { assert cut[i] == (batches + [current])[i]; }
    }
    forall i | 0 <= i < |cut| - 1 ensures Stops(cut, i, size) {
      if i < |batches| {
        assert Stops(batches + [current], i, size);
        assert cut[i] == (batches + [current])[i] && cut[i + 1] == (batches + [current])[i + 1];
      }
    }
  }

  lemma GrowLast<T(!new)>(batches: seq<seq<T>>, current: seq<T>, article: T, size: seq<T> -> nat)
    requires Greedy(batches + [current], size) && current != [] && !Full(current, article, size)
    ensures Greedy(batches + [current + [article]], size)
  {
    var before, cut := batches + [current], batches + [current + [article]];
    assert before[|batches|] == current;
    FitsMore(current, article, size);
    forall i | 0 <= i < |cut| ensures Fits(cut[i], size) {
      if i < |batches| { assert cut[i] == before[i]; }
    }
    forall i | 0 <= i < |cut| - 1 ensures Stops(cut, i, size) {
      assert Stops(before, i, size);
      assert cut[i] == before[i] && cut[i + 1][0] == before[i + 1][0];
    }
  }

  lemma {:induction false} FlattenHead<T>(batches: seq<seq<T>>, k: nat)
    requires k <= |batches|
    ensures Flatten(batches[..k]) <= Flatten(batches)
    decreases |batches|
  {
    if k < |batches| {
      assert batches[..|batches| - 1][..k] == batches[..k];
      FlattenHead(batches[..|batches| - 1], k);
    } else {
      assert batches[..k] == batches;
    }
  }

  lemma FlattenNext<T>(batches: seq<seq<T>>, k: nat)
    requires k < |batches|
    ensures Flatten(batches[..k + 1]) == Flatten(batches[..k]) + batches[k]
    ensures Flatten(batches[..k]) + batches[k] <= Flatten(batches)
  {
    FlattenHead(batches, k + 1);
    assert batches[..k + 1][..k] == batches[..k];
  }

  lemma SameStart<T>(all: seq<T>, done: seq<T>, x: seq<T>, y: seq<T>)
    requires done + x <= all && done + y <= all && |x| <= |y|
    ensures x <= y
  {
    forall i | 0 <= i < |x| ensures x[i] == y[i] {
      assert (done + x)[|done| + i] == all[|done| + i] == (done + y)[|done| + i];
    }
  }

  lemma NextIs<T>(all: seq<T>, done: seq<T>, x: seq<T>, y: seq<T>, next: T)
    requires done + y <= all && |x| < |y| && x <= y && done + x + [next] <= all
    ensures y[..|x| + 1] == x + [next]
  {
    assert (done + y)[|done| + |x|] == all[|done| + |x|] == (done + x + [next])[|done| + |x|];
  }

  /** A batch does not end where a longer one fits. */
  lemma NotShorter<T(!new)>(a: seq<seq<T>>, size: seq<T> -> nat, k: nat, y: seq<T>)
    requires Greedy(a, size) && k < |a| && Fits(y, size) && Flatten(a[..k]) + y <= Flatten(a)
    ensures |y| <= |a[k]|
  {
    var all, done, x := Flatten(a), Flatten(a[..k]), a[k];
    FlattenNext(a, k);
    assert a[..|a|] == a;
    if |x| < |y| {
      SameStart(all, done, x, y);
      if k + 1 < |a| {
        assert Stops(a, k, size);
        FlattenNext(a, k + 1);
        var next := a[k + 1][0];
        assert done + x + [next] <= done + x + a[k + 1];
        NextIs(all, done, x, y, next);
      }
    }
  }

  lemma SameBatch<T(!new)>(a: seq<seq<T>>, b: seq<seq<T>>, size: seq<T> -> nat, k: nat)
    requires Greedy(a, size) && Greedy(b, size) && Flatten(a) == Flatten(b) && k < |a| && k <= |b| && a[..k] == b[..k]
    ensures k < |b| && a[k] == b[k]
  {
    FlattenNext(a, k);
    assert Fits(a[k], size);
    assert b[..|b|] == b;
    if k < |b| {
      FlattenNext(b, k);
      NotShorter(a, size, k, b[k]);
      NotShorter(b, size, k, a[k]);
      SameStart(Flatten(a), Flatten(a[..k]), a[k], b[k]);
    }
  }

  /** Two greedy cuts of the same articles agree batch by batch. */
  lemma {:induction false} GreedyAgrees<T(!new)>(a: seq<seq<T>>, b: seq<seq<T>>, size: seq<T> -> nat, k: nat)
    requires Greedy(a, size) && Greedy(b, size) && Flatten(a) == Flatten(b) && k <= |a|
    ensures k <= |b| && a[..k] == b[..k]
  {
    if k > 0 {
      GreedyAgrees(a, b, size, k - 1);
      SameBatch(a, b, size, k - 1);
      assert a[..k] == a[..k - 1] + [a[k - 1]] && b[..k] == b[..k - 1] + [b[k - 1]];
    }
  }

  /** The greedy cut is the only one of its kind. */
  lemma GreedyIsUnique<T(!new)>(a: seq<seq<T>>, b: seq<seq<T>>, size: seq<T> -> nat)
    requires Greedy(a, size) && Greedy(b, size) && Flatten(a) == Flatten(b)
    ensures a == b
  {
    GreedyAgrees(a, b, size, |a|);
    GreedyAgrees(b, a, size, |b|);
    assert a[..|a|] == a && b[..|b|] == b;
  }
}
