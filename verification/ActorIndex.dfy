/** Phase 6: indexing the articles of a run, with one receipt for each. */
module ActorIndex {
  import opened Wrappers

  /** An article of the run at its present revision. */
  datatype Unit = Unit(article: nat, revision: nat)

  /** A stored receipt: the revision it was made for, its actor coverage and its checksum. */
  datatype Receipt = Receipt(revision: nat, coverage: nat, checksum: nat)

  /** The checksum of a revision and coverage, and the coverages without any actor. */
  datatype Contract = Contract(checksum: (nat, nat) -> nat, noActor: nat -> bool)

  datatype Report = Report(total: nat, reused: nat, indexed: nat, zeroActor: nat, failed: nat, stopped: bool) {
    predicate Complete() { !stopped && failed == 0 && reused + indexed == total }
  }

  const BATCH: nat := 100

  /** A receipt counts when its checksum holds and it was made for the present revision. */
  predicate Current(k: Contract, rows: map<nat, Receipt>, u: Unit) {
    && u.article in rows
    && rows[u.article].checksum == k.checksum(rows[u.article].revision, rows[u.article].coverage)
    && rows[u.article].revision == u.revision
  }

  predicate DistinctUnits(units: seq<Unit>) {
    forall i, j :: 0 <= i < j < |units| ==> units[i].article != units[j].article
  }

  /** The units without a current receipt, in order. */
  function Pending(k: Contract, rows: map<nat, Receipt>, units: seq<Unit>): seq<Unit> {
    if units == [] then []
    else Pending(k, rows, units[..|units| - 1]) + if Current(k, rows, units[|units| - 1]) then []
      else [units[|units| - 1]]
  }

  /** What indexing each article comes to in this pass: its coverage, or a failure. */
  type Outcomes = nat -> Option<nat>

  /** The receipts after the first `n` pending units: a failed unit leaves its own as it was. */
  function Indexed(k: Contract, rows: map<nat, Receipt>, pending: seq<Unit>, outcome: Outcomes,
      n: nat): map<nat, Receipt>
    requires n <= |pending|
  {
    if n == 0 then rows
    else
      var before, u := Indexed(k, rows, pending, outcome, n - 1), pending[n - 1];
      match outcome(u.article)
      case None => before
      case Some(coverage) => before[u.article := Receipt(u.revision, coverage, k.checksum(u.revision, coverage))]
  }

  function Failures(pending: seq<Unit>, outcome: Outcomes, n: nat): (f: nat)
    requires n <= |pending|
    ensures f <= n
  {
    if n == 0 then 0 else Failures(pending, outcome, n - 1) + if outcome(pending[n - 1].article) == None then 1 else 0
  }

  function Actorless(k: Contract, pending: seq<Unit>, outcome: Outcomes, n: nat): nat
    requires n <= |pending|
  {
    if n == 0 then 0
    else
      var o := outcome(pending[n - 1].article);
      Actorless(k, pending, outcome, n - 1) + if o.Some? && k.noActor(o.value) then 1 else 0
  }

  /** How many of `count` pending units are visited from batch `from` on: all before the first
      batch at which the pass is asked to stop. */
  function Visited(count: nat, stops: nat -> bool, from: nat): (v: nat)
    requires from * BATCH <= count
    ensures from * BATCH <= v <= count
    decreases count - from * BATCH
  {
    if from * BATCH == count || stops(from) then from * BATCH
    else if (from + 1) * BATCH <= count then Visited(count, stops, from + 1)
    else count
  }

  /** The report of a pass. */
  function ReportOf(k: Contract, rows: map<nat, Receipt>, units: seq<Unit>, outcome: Outcomes,
      stops: nat -> bool): Report {
    var pending := Pending(k, rows, units);
    var n := Visited(|pending|, stops, 0);
    PendingFits(k, rows, units);
    Report(|units|, |units| - |pending|, n - Failures(pending, outcome, n), Actorless(k, pending, outcome, n),
      Failures(pending, outcome, n), n < |pending|)
  }

  lemma {:induction false} PendingFits(k: Contract, rows: map<nat, Receipt>, units: seq<Unit>)
    ensures |Pending(k, rows, units)| <= |units|
  {
    if units != [] { PendingFits(k, rows, units[..|units| - 1]); }
  }

  function After(k: Contract, rows: map<nat, Receipt>, units: seq<Unit>, outcome: Outcomes,
      stops: nat -> bool): map<nat, Receipt> {
    var pending := Pending(k, rows, units);
    Indexed(k, rows, pending, outcome, Visited(|pending|, stops, 0))
  }

  class Repository {
    var rows: map<nat, Receipt>

    constructor (rows: map<nat, Receipt>)
      ensures this.rows == rows
    {
      this.rows := rows;
    }

    /** One article in a transaction of its own. */
    method IndexOne(k: Contract, u: Unit, outcome: Outcomes) returns (coverage: Option<nat>)
      modifies this
      ensures coverage == outcome(u.article)
      ensures rows ==
        if coverage.None? then old(rows)
        else old(rows)[u.article := Receipt(u.revision, coverage.value, k.checksum(u.revision, coverage.value))]
    {
      coverage := outcome(u.article);
      if coverage.Some? {
        rows := rows[u.article := Receipt(u.revision, coverage.value, k.checksum(u.revision, coverage.value))];
      }
    }

    /** One pass over the run's units, in batches. */
    method IndexRun(k: Contract, units: seq<Unit>, outcome: Outcomes, stops: nat -> bool) returns (report: Report)
      modifies this
      ensures rows == After(k, old(rows), units, outcome, stops)
      ensures report == ReportOf(k, old(rows), units, outcome, stops)
    {
      ghost var before := rows;
      var pending, reused := [], 0;
      for i := 0 to |units|
        invariant pending == Pending(k, rows, units[..i]) && reused == i - |pending| && rows == before
      {
        assert units[..i + 1][..i] == units[..i];
        if Current(k, rows, units[i]) { reused := reused + 1; } else { pending := pending + [units[i]]; }
      }
      assert units[..|units|] == units;
      var n, zero, failed, stopped := IndexBatches(k, pending, outcome, stops);
      report := Report(|units|, reused, n - failed, zero, failed, stopped);
    }

    /** The batches, until none is left or the pass is asked to stop. */
    method IndexBatches(k: Contract, pending: seq<Unit>, outcome: Outcomes,
        stops: nat -> bool) returns (n: nat, zero: nat, failed: nat, stopped: bool)
      modifies this
      ensures n == Visited(|pending|, stops, 0) && stopped == (n < |pending|)
      ensures rows == Indexed(k, old(rows), pending, outcome, n)
      ensures zero == Actorless(k, pending, outcome, n) && failed == Failures(pending, outcome, n)
    {
      ghost var before := rows;
      var batch := 0;
      n, zero, failed, stopped := 0, 0, 0, false;
      while n < |pending|
        invariant n == batch * BATCH || n == |pending|
        invariant n <= |pending|
        invariant n == batch * BATCH ==> Visited(|pending|, stops, 0) == Visited(|pending|, stops, batch)
        invariant n == |pending| ==> Visited(|pending|, stops, 0) == n
        invariant rows == Indexed(k, before, pending, outcome, n)
        invariant zero == Actorless(k, pending, outcome, n) && failed == Failures(pending, outcome, n)
        invariant !stopped
      {
        if stops(batch) {
          stopped := true;
          return;
        }
        var end := if n + BATCH <= |pending| then n + BATCH else |pending|;
        zero, failed := IndexBatch(k, pending, outcome, n, end, zero, failed, before);
        n, batch := end, batch + 1;
      }
    }

    method IndexBatch(k: Contract, pending: seq<Unit>, outcome: Outcomes, start: nat, end: nat, zero0: nat,
        failed0: nat, ghost before: map<nat, Receipt>) returns (zero: nat, failed: nat)
      requires start <= end <= |pending| && rows == Indexed(k, before, pending, outcome, start)
      requires zero0 == Actorless(k, pending, outcome, start) && failed0 == Failures(pending, outcome, start)
      modifies this
      ensures rows == Indexed(k, before, pending, outcome, end)
      ensures zero == Actorless(k, pending, outcome, end) && failed == Failures(pending, outcome, end)
    {
      zero, failed := zero0, failed0;
      for i := start to end
        invariant rows == Indexed(k, before, pending, outcome, i)
        invariant zero == Actorless(k, pending, outcome, i) && failed == Failures(pending, outcome, i)
      {
        var coverage := IndexOne(k, pending[i], outcome);
        if coverage.None? {
          failed := failed + 1;
        } else if k.noActor(coverage.value) {
          zero := zero + 1;
        }
      }
    }
  }

  // -------------------------------------------------------------- what is counted

  /** A receipt is current exactly when it is for the present revision and its checksum is that of
      the revision and its coverage. */
  lemma CurrentExactlyWhen(k: Contract, rows: map<nat, Receipt>, u: Unit)
    ensures Current(k, rows, u) <==>
      u.article in rows && rows[u.article] ==
        Receipt(u.revision, rows[u.article].coverage, k.checksum(u.revision, rows[u.article].coverage))
  {
  }

  /** The places of the units indexed without any actor. */
  function Idle(k: Contract, pending: seq<Unit>, outcome: Outcomes, n: nat): set<nat>
    requires n <= |pending|
  {
    set i: nat | i < n && outcome(pending[i].article).Some? && k.noActor(outcome(pending[i].article).value)
  }

  lemma {:induction false} ActorlessIs(k: Contract, pending: seq<Unit>, outcome: Outcomes, n: nat)
    requires n <= |pending|
    ensures Actorless(k, pending, outcome, n) == |Idle(k, pending, outcome, n)|
  {
    if n > 0 {
      ActorlessIs(k, pending, outcome, n - 1);
      IdleStep(k, pending, outcome, n);
    }
  }

  lemma IdleStep(k: Contract, pending: seq<Unit>, outcome: Outcomes, n: nat)
    requires 0 < n <= |pending|
    ensures var o := outcome(pending[n - 1].article);
            Idle(k, pending, outcome, n) ==
              Idle(k, pending, outcome, n - 1) + if o.Some? && k.noActor(o.value) then {n - 1} else {}
  {
  }

  /** A pass visits all units before the first batch of a hundred at which it is told to stop. */
  lemma {:induction false} VisitedExactlyWhen(count: nat, stops: nat -> bool, from: nat, b: nat)
    requires from * 100 <= count && from <= b && b * 100 < count && stops(b)
    requires forall i :: from <= i < b ==> !stops(i)
    ensures Visited(count, stops, from) == b * 100
    decreases b - from
  {
    if from < b { VisitedExactlyWhen(count, stops, from + 1, b); }
  }

  lemma {:induction false} AllVisited(count: nat, stops: nat -> bool, from: nat)
    requires from * 100 <= count && forall i :: from <= i && i * 100 < count ==> !stops(i)
    ensures Visited(count, stops, from) == count
    decreases count - from * 100
  {
    if (from + 1) * 100 <= count { AllVisited(count, stops, from + 1); }
  }

  // --------------------------------------------------------------- convergence

  lemma {:induction false} PendingIs(k: Contract, rows: map<nat, Receipt>, units: seq<Unit>)
    requires DistinctUnits(units)
    ensures forall u :: u in Pending(k, rows, units) <==> u in units && !Current(k, rows, u)
    ensures DistinctUnits(Pending(k, rows, units))
  {
    if units != [] {
      var rest, last := units[..|units| - 1], units[|units| - 1];
      PendingIs(k, rows, rest);
      assert units == rest + [last];
      forall i | 0 <= i < |Pending(k, rows, rest)| ensures Pending(k, rows, rest)[i].article != last.article {
        assert Pending(k, rows, rest)[i] in rest;
      }
    }
  }

  /** What a pass does to one article: visited and not failed, it gets its receipt. */
  lemma {:induction false} IndexedIs(k: Contract, rows: map<nat, Receipt>, pending: seq<Unit>,
      outcome: Outcomes, n: nat)
    requires n <= |pending| && DistinctUnits(pending)
    ensures forall i :: 0 <= i < n && outcome(pending[i].article).Some? ==>
            Current(k, Indexed(k, rows, pending, outcome, n), pending[i])
    ensures forall a :: (forall i :: 0 <= i < n ==> pending[i].article != a || outcome(a) == None) ==>
      (a in Indexed(k, rows, pending, outcome, n) <==> a in rows)
        && (a in rows ==> Indexed(k, rows, pending, outcome, n)[a] == rows[a])
  {
    if n > 0 {
      IndexedIs(k, rows, pending, outcome, n - 1);
    }
  }

  /** A unit is current after a pass exactly when it was, or the pass indexed it. */
  lemma CurrentAfter(k: Contract, rows: map<nat, Receipt>, units: seq<Unit>, outcome: Outcomes, n: nat, u: Unit)
    requires DistinctUnits(units) && u in units && n <= |Pending(k, rows, units)|
    ensures Current(k, Indexed(k, rows, Pending(k, rows, units), outcome, n), u) <==>
      Current(k, rows, u) || exists i :: 0 <= i < n && Pending(k, rows, units)[i] == u && outcome(u.article).Some?
  {
    var pending := Pending(k, rows, units);
    PendingIs(k, rows, units);
    IndexedIs(k, rows, pending, outcome, n);
    if !exists i :: 0 <= i < n && pending[i] == u && outcome(u.article).Some? {
      forall i | 0 <= i < n ensures pending[i].article != u.article || outcome(u.article) == None {
        if pending[i].article == u.article {
          assert pending[i] in pending;
          SameUnit(units, pending[i], u);
        }
      }
    }
  }

  lemma SameUnit(units: seq<Unit>, u: Unit, v: Unit)
    requires DistinctUnits(units) && u in units && v in units && u.article == v.article
    ensures u == v
  {
    var i :| 0 <= i < |units| && units[i] == u;
    var j :| 0 <= j < |units| && units[j] == v;
  }

  lemma {:induction false} NoFailures(pending: seq<Unit>, outcome: Outcomes, n: nat)
    requires n <= |pending|
    ensures Failures(pending, outcome, n) == 0 <==> forall i :: 0 <= i < n ==> outcome(pending[i].article).Some?
  {
    if n > 0 { NoFailures(pending, outcome, n - 1); }
  }

  ghost predicate AllCurrent(k: Contract, rows: map<nat, Receipt>, units: seq<Unit>) {
    forall u :: u in units ==> Current(k, rows, u)
  }

  /** A pass reports phase 6 complete exactly when every unit has a current receipt after it. */
  lemma CompleteExactlyWhen(k: Contract, rows: map<nat, Receipt>, units: seq<Unit>, outcome: Outcomes,
      stops: nat -> bool)
    requires DistinctUnits(units)
    ensures ReportOf(k, rows, units, outcome, stops).Complete() <==>
            AllCurrent(k, After(k, rows, units, outcome, stops), units)
  {
    var pending := Pending(k, rows, units);
    var n := Visited(|pending|, stops, 0);
    var report, after := ReportOf(k, rows, units, outcome, stops), After(k, rows, units, outcome, stops);
    PendingIs(k, rows, units);
    NoFailures(pending, outcome, n);
    if report.Complete() {
      forall u | u in units ensures Current(k, after, u) {
        CurrentAfter(k, rows, units, outcome, n, u);
        if !Current(k, rows, u) { var i :| 0 <= i < |pending| && pending[i] == u; }
      }
    }
    if AllCurrent(k, after, units) {
      if n < |pending| {
        assert pending[n] in pending;
        CurrentAfter(k, rows, units, outcome, n, pending[n]);
      }
      forall i | 0 <= i < n ensures outcome(pending[i].article).Some? {
        assert pending[i] in pending;
        CurrentAfter(k, rows, units, outcome, n, pending[i]);
      }
    }
  }

  /** Every unit is reused, indexed, failed or left unvisited; those current afterwards are the
      reused and the indexed. */
  lemma PassAccounts(k: Contract, rows: map<nat, Receipt>, units: seq<Unit>, outcome: Outcomes, stops: nat -> bool)
    requires DistinctUnits(units)
    ensures var r := ReportOf(k, rows, units, outcome, stops);
            && r.total == |units|
            && r.reused == |units| - |Pending(k, rows, units)|
            && r.reused + r.indexed == |units| - |Pending(k, After(k, rows, units, outcome, stops), units)|
            && r.reused + r.indexed + r.failed <= r.total
            && (r.stopped <==> r.reused + r.indexed + r.failed < r.total)
  {
    var pending := Pending(k, rows, units);
    var n := Visited(|pending|, stops, 0);
    PendingFits(k, rows, units);
    StillPending(k, rows, units, outcome, n);
  }

  /** One more pending unit visited. */
  lemma OneVisited(k: Contract, rows: map<nat, Receipt>, units: seq<Unit>, pending: seq<Unit>, outcome: Outcomes,
      n: nat)
    requires DistinctUnits(units) && pending == Pending(k, rows, units) && 0 < n <= |pending|
    ensures var before, now := Indexed(k, rows, pending, outcome, n - 1), Indexed(k, rows, pending, outcome, n);
            |Pending(k, now, units)| == |Pending(k, before, units)| - if outcome(pending[n - 1].article).Some? then 1
              else 0
  {
    var before, now, u := Indexed(k, rows, pending, outcome, n - 1), Indexed(k, rows, pending, outcome, n),
      pending[n - 1];
    PendingIs(k, rows, units);
    assert u in pending;
    if outcome(u.article).Some? {
      CurrentAfter(k, rows, units, outcome, n - 1, u);
      assert !Current(k, before, u);
      OneLess(k, before, now, units, u);
    }
  }

  lemma {:induction false} StillPending(k: Contract, rows: map<nat, Receipt>, units: seq<Unit>,
      outcome: Outcomes, n: nat)
    requires DistinctUnits(units) && n <= |Pending(k, rows, units)|
    ensures |Pending(k, Indexed(k, rows, Pending(k, rows, units), outcome, n), units)| ==
      |Pending(k, rows, units)| - n + Failures(Pending(k, rows, units), outcome, n)
  {
    if n > 0 {
      StillPending(k, rows, units, outcome, n - 1);
      OneVisited(k, rows, units, Pending(k, rows, units), outcome, n);
    }
  }

  /** Indexing one pending unit takes exactly it off the pending ones. */
  lemma {:induction false} OneLess(k: Contract, rows: map<nat, Receipt>, now: map<nat, Receipt>,
      units: seq<Unit>, u: Unit)
    requires DistinctUnits(units) && !Current(k, rows, u) && Current(k, now, u)
    requires forall v :: v in units && v != u ==> (Current(k, now, v) <==> Current(k, rows, v))
    ensures |Pending(k, now, units)| == |Pending(k, rows, units)| - if u in units then 1 else 0
  {
    if units != [] {
      var rest, last := units[..|units| - 1], units[|units| - 1];
      assert units == rest + [last];
      OneLess(k, rows, now, rest, u);
    }
  }

  /** A pass over unchanged revisions never loses a current receipt. */
  lemma CurrentStays(k: Contract, rows: map<nat, Receipt>, units: seq<Unit>, outcome: Outcomes,
      stops: nat -> bool, u: Unit)
    requires DistinctUnits(units) && u in units && Current(k, rows, u)
    ensures Current(k, After(k, rows, units, outcome, stops), u)
  {
    CurrentAfter(k, rows, units, outcome, Visited(|Pending(k, rows, units)|, stops, 0), u);
  }

  lemma {:induction false} NothingPending(k: Contract, rows: map<nat, Receipt>, units: seq<Unit>)
    requires AllCurrent(k, rows, units)
    ensures Pending(k, rows, units) == []
  {
    if units != [] {
      assert units == units[..|units| - 1] + [units[|units| - 1]];
      NothingPending(k, rows, units[..|units| - 1]);
    }
  }

  /** After a complete pass the next one reuses every receipt, indexes nothing and changes
      nothing, whatever its outcomes would have been. */
  lemma CompleteIsStable(k: Contract, rows: map<nat, Receipt>, units: seq<Unit>, outcome: Outcomes,
      stops: nat -> bool, outcome': Outcomes, stops': nat -> bool)
    requires DistinctUnits(units) && ReportOf(k, rows, units, outcome, stops).Complete()
    ensures var after := After(k, rows, units, outcome, stops);
            && After(k, after, units, outcome', stops') == after
            && ReportOf(k, after, units, outcome', stops') == Report(|units|, |units|, 0, 0, 0, false)
  {
    CompleteExactlyWhen(k, rows, units, outcome, stops);
    NothingPending(k, After(k, rows, units, outcome, stops), units);
  }
}
