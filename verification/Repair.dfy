/** Repairing past runs page by page, in start order.

    Progress is saved after each page, so a job that is cut short repairs at most the runs of one
    page a second time. */
module Repair {
  import opened Sorting

  /** A run by its start and id, in the order of each; `past` when its contract is a past one. */
  datatype Run = Run(started: nat, id: nat, past: bool)

  /** The last run whose repair was saved; the start of the order before the first. */
  datatype Cursor = Beginning | After(started: nat, id: nat)

  datatype Progress = Progress(cursor: Cursor, checked: nat, done: bool)

  predicate Before(x: Run, y: Run) {
    x.started < y.started || (x.started == y.started && (x.id < y.id || (x.id == y.id && (x.past || !y.past))))
  }

  predicate Above(r: Run, c: Cursor) {
    c.Beginning? || r.started > c.started || (r.started == c.started && r.id > c.id)
  }

  ghost predicate DistinctIds(runs: seq<Run>) {
    forall i, j :: 0 <= i < j < |runs| ==> runs[i].id != runs[j].id
  }

  function Remaining(runs: seq<Run>, c: Cursor): (r: seq<Run>)
    ensures forall x :: x in r <==> x in runs && x.past && Above(x, c)
  {
    if runs == [] then []
    else
      assert runs == [runs[0]] + runs[1..];
      (if runs[0].past && Above(runs[0], c) then [runs[0]] else []) + Remaining(runs[1..], c)
  }

  /** The past runs above the cursor, in order. */
  function Queue(runs: seq<Run>, c: Cursor): seq<Run> { Sort(Before, Remaining(runs, c)) }

  ghost predicate Rising(s: seq<Run>) {
    forall i, j :: 0 <= i < j < |s| ==> Above(s[j], After(s[i].started, s[i].id))
  }

  lemma {:induction false} RemainingDistinct(runs: seq<Run>, c: Cursor)
    requires DistinctIds(runs)
    ensures DistinctIds(Remaining(runs, c))
  {
    if runs != [] {
      assert forall i :: 0 <= i < |runs| - 1 ==> runs[1..][i] == runs[i + 1];
      RemainingDistinct(runs[1..], c);
      var rest := Remaining(runs[1..], c);
      forall j | 0 <= j < |rest| ensures rest[j].id != runs[0].id {
        assert rest[j] in runs[1..];
      }
    }
  }

  ghost predicate NoSecond(s: seq<Run>, id: nat) { forall i :: 0 <= i < |s| ==> s[i].id != id }

  lemma {:induction false} InsertDistinct(x: Run, s: seq<Run>)
    requires DistinctIds(s) && NoSecond(s, x.id)
    ensures DistinctIds(Insert(Before, x, s))
    ensures forall id :: NoSecond(s, id) && x.id != id ==> NoSecond(Insert(Before, x, s), id)
  {
    if s != [] && !Before(x, s[0]) {
      InsertDistinct(x, s[1..]);
      assert NoSecond(s[1..], s[0].id);
      forall id | NoSecond(s, id) && x.id != id ensures NoSecond(Insert(Before, x, s), id) {
        assert NoSecond(s[1..], id) && s[0].id != id;
      }
    }
  }

  lemma {:induction false} SortDistinct(s: seq<Run>)
    requires DistinctIds(s)
    ensures DistinctIds(Sort(Before, s))
    ensures forall id :: NoSecond(s, id) ==> NoSecond(Sort(Before, s), id)
  {
    if s != [] {
      SortDistinct(s[1..]);
      assert NoSecond(s[1..], s[0].id);
      InsertDistinct(s[0], Sort(Before, s[1..]));
      forall id | NoSecond(s, id) ensures NoSecond(s[1..], id) && s[0].id != id {}
    }
  }

  /** The queue holds exactly the past runs above the cursor, each once and rising. */
  lemma QueueIs(runs: seq<Run>, c: Cursor)
    requires DistinctIds(runs)
    ensures Rising(Queue(runs, c))
    ensures forall x :: x in Queue(runs, c) <==> x in runs && x.past && Above(x, c)
  {
    var rest := Remaining(runs, c);
    RemainingDistinct(runs, c);
    SortDistinct(rest);
    SortSorts(Before, rest);
    forall x ensures x in Queue(runs, c) <==> x in rest { SortKeeps(Before, rest, x); }
    var q := Queue(runs, c);
    forall i, j | 0 <= i < j < |q| ensures Above(q[j], After(q[i].started, q[i].id)) {
      assert Before(q[i], q[j]) && q[i].id != q[j].id;
    }
  }

  lemma SameLast(a: seq<Run>, b: seq<Run>)
    requires Rising(a) && Rising(b) && a != [] && b != [] && a[|a| - 1] in b && b[|b| - 1] in a
    ensures a[|a| - 1] == b[|b| - 1]
  {
    LastIsTop(a, b[|b| - 1]);
    LastIsTop(b, a[|a| - 1]);
  }

  /** Rising lists of the same runs are equal. */
  lemma {:induction false} RisingUnique(a: seq<Run>, b: seq<Run>)
    requires Rising(a) && Rising(b) && forall x :: x in a <==> x in b
    ensures a == b
    decreases |a|
  {
    assert a != [] ==> a[|a| - 1] in b;
    assert b != [] ==> b[|b| - 1] in a;
    if a != [] {
      SameLast(a, b);
      var x, y := a[..|a| - 1], b[..|b| - 1];
      forall r ensures r in x <==> r in y {
        InFront(a, r);
        InFront(b, r);
      }
      RisingUnique(x, y);
    }
  }

  /** A rising list without its last run lacks exactly that run. */
  lemma InFront(s: seq<Run>, r: Run)
    requires Rising(s) && s != []
    ensures r in s[..|s| - 1] <==> r in s && r != s[|s| - 1]
    ensures s == s[..|s| - 1] + [s[|s| - 1]]
  {
    LastOnce(s);
    assert s == s[..|s| - 1] + [s[|s| - 1]];
  }

  lemma LastIsTop(s: seq<Run>, x: Run)
    requires Rising(s) && x in s
    ensures x == s[|s| - 1] || Above(s[|s| - 1], After(x.started, x.id))
  {
    var i :| 0 <= i < |s| && s[i] == x;
  }

  lemma LastOnce(s: seq<Run>)
    requires Rising(s) && s != []
    ensures s[|s| - 1] !in s[..|s| - 1]
  {
    forall i | 0 <= i < |s| - 1 ensures s[i] != s[|s| - 1] {
      assert Above(s[|s| - 1], After(s[i].started, s[i].id));
    }
  }

  /** A run of a rising list stands after another exactly when it is above it. */
  lemma AboveIsAfter(s: seq<Run>, n: nat, i: nat)
    requires Rising(s) && 0 < n <= |s| && i < |s|
    ensures Above(s[i], After(s[n - 1].started, s[n - 1].id)) <==> i >= n
  {
    if i < n - 1 { assert Above(s[n - 1], After(s[i].started, s[i].id)); }
  }

  lemma RestIsAbove(runs: seq<Run>, c: Cursor, n: nat, x: Run)
    requires DistinctIds(runs) && 0 < n <= |Queue(runs, c)|
    ensures var last := Queue(runs, c)[n - 1]; x in Queue(runs, c)[n..] <==>
      x in runs && x.past && Above(x, c) && Above(x, After(last.started, last.id))
  {
    var q := Queue(runs, c);
    QueueIs(runs, c);
    if x in q[n..] {
      var i :| 0 <= i < |q| - n && q[n..][i] == x;
      assert q[n + i] in q;
      AboveIsAfter(q, n, n + i);
    }
    if x in q {
      var i :| 0 <= i < |q| && q[i] == x;
      AboveIsAfter(q, n, i);
      assert i >= n ==> q[n..][i - n] == x;
    }
  }

  /** Moving the cursor to a run of the queue leaves exactly what follows it. */
  lemma QueueFollows(runs: seq<Run>, c: Cursor, n: nat)
    requires DistinctIds(runs) && 0 < n <= |Queue(runs, c)|
    ensures var last := Queue(runs, c)[n - 1]; Queue(runs, After(last.started, last.id)) == Queue(runs, c)[n..]
  {
    var q := Queue(runs, c);
    var next := After(q[n - 1].started, q[n - 1].id);
    QueueIs(runs, c);
    QueueIs(runs, next);
    assert q[n - 1] in q;
    forall x ensures x in q[n..] <==> x in Queue(runs, next) {
      RestIsAbove(runs, c, n, x);
    }
    RisingUnique(q[n..], Queue(runs, next));
  }

  function Least(x: nat, y: nat): nat { if x < y then x else y }

  function Most(x: nat, y: nat): nat { if x > y then x else y }

  /** The cursor after one page. */
  function AfterPage(runs: seq<Run>, c: Cursor, page: nat): Cursor {
    var queue := Queue(runs, c);
    var n := Least(|queue|, Most(page, 1));
    if n == 0 then c else After(queue[n - 1].started, queue[n - 1].id)
  }

  /** The runs of the next page. */
  function Page(runs: seq<Run>, c: Cursor, page: nat): (p: seq<Run>)
    ensures p <= Queue(runs, c) && (p == [] <==> Queue(runs, c) == [])
  {
    Queue(runs, c)[..Least(|Queue(runs, c)|, Most(page, 1))]
  }

  /** The saved cursor after `k` pages. */
  function AfterPages(runs: seq<Run>, c: Cursor, page: nat, k: nat): Cursor {
    if k == 0 then c else AfterPage(runs, AfterPages(runs, c, page, k - 1), page)
  }

  /** The runs of the first `k` pages. */
  function Pages(runs: seq<Run>, c: Cursor, page: nat, k: nat): seq<Run> {
    if k == 0 then [] else Pages(runs, c, page, k - 1) + Page(runs, AfterPages(runs, c, page, k - 1), page)
  }

  /** A page and what its cursor leaves make up the queue. */
  lemma PageFollows(runs: seq<Run>, c: Cursor, page: nat)
    requires DistinctIds(runs)
    ensures Page(runs, c, page) + Queue(runs, AfterPage(runs, c, page)) == Queue(runs, c)
  {
    var queue := Queue(runs, c);
    var n := Least(|queue|, Most(page, 1));
    if n > 0 { QueueFollows(runs, c, n); }
    assert queue[..n] + queue[n..] == queue;
  }

  /** One page: up to `page` runs are repaired, each moving the cursor; an empty page ends it. */
  method RepairPage(runs: seq<Run>, before: Progress, page: nat) returns (progress: Progress, repaired: seq<Run>)
    requires DistinctIds(runs)
    ensures repaired == Page(runs, before.cursor, page)
    ensures |repaired| == Least(|Queue(runs, before.cursor)|, Most(page, 1))
    ensures progress.cursor == AfterPage(runs, before.cursor, page)
    ensures progress.checked == before.checked + |repaired|
    ensures progress.done <==> before.done || Queue(runs, before.cursor) == []
  {
    var queue := Queue(runs, before.cursor);
    var todo := queue[..Least(|queue|, Most(page, 1))];
    progress, repaired := before, [];
    if todo == [] {
      progress := progress.(done := true);
      return;
    }
    for i := 0 to |todo|
      invariant repaired == todo[..i]
      invariant progress.checked == before.checked + i && progress.done == before.done
      invariant progress.cursor == if i == 0 then before.cursor else After(todo[i - 1].started, todo[i - 1].id)
    {
      progress := progress.(checked := progress.checked + 1, cursor := After(todo[i].started, todo[i].id));
      repaired := repaired + [todo[i]];
    }
  }

  lemma Regroup(done: seq<Run>, one: seq<Run>, rest: seq<Run>)
    ensures done + (one + rest) == (done + one) + rest
  {
  }

  /** The whole job: page after page until one is empty. */
  method RunRepairJob(runs: seq<Run>, saved: Progress, page: nat, restart: bool) returns (progress: Progress,
      repaired: seq<Run>)
    requires DistinctIds(runs)
    ensures var start := if restart || saved.done then Progress(Beginning, 0, false) else saved;
            && repaired == Queue(runs, start.cursor)
            && progress.checked == start.checked + |repaired|
            && progress.done && Queue(runs, progress.cursor) == []
  {
    progress := if restart || saved.done then Progress(Beginning, 0, false) else saved;
    ghost var start := progress;
    ghost var all := Queue(runs, start.cursor);
    repaired := [];
    var more := true;
    while more
      invariant repaired + Queue(runs, progress.cursor) == all
      invariant progress.checked == start.checked + |repaired|
      invariant more ==> !progress.done
      invariant !more ==> progress.done && Queue(runs, progress.cursor) == []
      decreases more, |Queue(runs, progress.cursor)|
    {
      PageFollows(runs, progress.cursor, page);
      var next, one := RepairPage(runs, progress, page);
      Regroup(repaired, one, Queue(runs, next.cursor));
      progress, repaired, more := next, repaired + one, one != [];
    }
  }

  lemma {:induction false} OnceEach(s: seq<Run>, x: Run)
    requires Rising(s)
    ensures multiset(s)[x] == if x in s then 1 else 0
  {
    if s != [] {
      InFront(s, x);
      OnceEach(s[..|s| - 1], x);
    }
  }

  lemma RepeatedOnly(saved: seq<Run>, rest: seq<Run>, again: seq<Run>, x: Run)
    requires Rising(saved + rest) && Rising(rest) && again <= rest
    ensures multiset(saved + again + rest)[x] == if x in again then 2 else if x in saved + rest then 1 else 0
  {
    OnceEach(saved + rest, x);
    OnceEach(again, x);
    assert multiset(saved + again + rest) == multiset(saved + rest) + multiset(again);
  }

  /** What `k` pages have saved and what is left make up the whole queue. */
  lemma {:induction false} PagesFollow(runs: seq<Run>, start: Cursor, page: nat, k: nat)
    requires DistinctIds(runs)
    ensures Pages(runs, start, page, k) + Queue(runs, AfterPages(runs, start, page, k)) == Queue(runs, start)
  {
    if k > 0 {
      var c := AfterPages(runs, start, page, k - 1);
      PagesFollow(runs, start, page, k - 1);
      PageFollows(runs, c, page);
      Regroup(Pages(runs, start, page, k - 1), Page(runs, c, page), Queue(runs, AfterPage(runs, c, page)));
    }
  }

  /** A job killed after `k` saved pages while it had repaired `again`, the first runs of the
      next page, and then started from its saved progress: in all it repairs each run of the
      queue once, but those of `again` twice, and no other run. */
  lemma RestartRevisitsOnePage(runs: seq<Run>, start: Cursor, page: nat, k: nat, again: seq<Run>, x: Run)
    requires DistinctIds(runs) && again <= Page(runs, AfterPages(runs, start, page, k), page)
    ensures var rest := Queue(runs, AfterPages(runs, start, page, k));
            multiset(Pages(runs, start, page, k) + again + rest)[x] ==
              if x in again then 2 else if x in Queue(runs, start) then 1 else 0
  {
    var c := AfterPages(runs, start, page, k);
    PagesFollow(runs, start, page, k);
    QueueIs(runs, start);
    QueueIs(runs, c);
    RepeatedOnly(Pages(runs, start, page, k), Queue(runs, c), again, x);
  }
}
