/** The inventory worker: articles are collected in queue order while the publisher index is
    still on its way. */
module Inventory {
  import opened Wrappers

  /** What happens next.  `intact` tells which waiting articles still have their row, hash and
      metadata when the publishers are filled in. */
  datatype Event =
    | Collected(stored: bool)
    | PublisherArrives(found: bool, intact: nat -> bool)
    | ArticleArrives
    | QueueCloses(found: bool, intact: nat -> bool)
    | CancelRequested

  datatype Place = Collecting(article: nat) | Waiting | Over

  /** In queue order, each once. */
  ghost predicate Ordered(s: seq<nat>) {
    forall i, j :: 0 <= i < j < |s| ==> s[i] < s[j]
  }

  ghost predicate AllBelow(s: seq<nat>, n: nat) {
    forall x :: x in s ==> x < n
  }

  function Keep(s: seq<nat>, intact: nat -> bool): seq<nat> {
    if s == [] then [] else Keep(s[..|s| - 1], intact) + if intact(s[|s| - 1]) then [s[|s| - 1]] else []
  }

  lemma {:induction false} KeepIs(s: seq<nat>, intact: nat -> bool)
    requires Ordered(s)
    ensures Ordered(Keep(s, intact))
    ensures forall x :: x in Keep(s, intact) <==> x in s && intact(x)
  {
    if s != [] {
      var rest := s[..|s| - 1];
      KeepIs(rest, intact);
      assert s == rest + [s[|s| - 1]];
      forall i | 0 <= i < |Keep(rest, intact)| ensures Keep(rest, intact)[i] < s[|s| - 1] {
        assert Keep(rest, intact)[i] in rest;
      }
    }
  }

  lemma OrderedJoin(a: seq<nat>, b: seq<nat>, n: nat)
    requires Ordered(a) && AllBelow(a, n) && Ordered(b) && forall x :: x in b ==> n <= x
    ensures Ordered(a + b)
  {
    forall i, j | 0 <= i < j < |a + b| ensures (a + b)[i] < (a + b)[j] {
      if i < |a| { assert a[i] in a; }
      if j >= |a| { assert b[j - |a|] in b; }
    }
  }

  /** The parts of the articles handled so far, as the worker's effects split them. */
  datatype Books = Books(refused: seq<nat>, recorded: seq<nat>, pending: seq<nat>, dropped: seq<nat>)

  ghost predicate InOne(b: Books, x: nat) {
    && (x in b.refused ==> x !in b.recorded && x !in b.pending && x !in b.dropped)
    && (x in b.recorded ==> x !in b.pending && x !in b.dropped)
    && (x in b.pending ==> x !in b.dropped)
  }

  /** Of the first `n` articles each is in exactly one part; publishers are recorded in queue
      order, those still waiting after those recorded. */
  ghost predicate Balanced(b: Books, n: nat) {
    && (forall x: nat :: x < n <==> x in b.refused || x in b.recorded || x in b.pending || x in b.dropped)
    && (forall x: nat :: InOne(b, x))
    && Ordered(b.recorded + b.pending)
  }

  function Flushed(b: Books, intact: nat -> bool): Books {
    b.(recorded := b.recorded + Keep(b.pending, intact), pending := [], dropped := b.dropped
      + Keep(b.pending, (x: nat) => !intact(x)))
  }

  lemma OrderedParts(a: seq<nat>, b: seq<nat>)
    requires Ordered(a + b)
    ensures Ordered(a) && Ordered(b)
    ensures forall x, y :: x in a && y in b ==> x < y
  {
    forall i, j | 0 <= i < j < |a| ensures a[i] < a[j] { assert (a + b)[i] < (a + b)[j]; }
    forall i, j | 0 <= i < j < |b| ensures b[i] < b[j] { assert (a + b)[|a| + i] < (a + b)[|a| + j]; }
    forall x, y | x in a && y in b ensures x < y {
      var i :| 0 <= i < |a| && a[i] == x;
      var j :| 0 <= j < |b| && b[j] == y;
      assert (a + b)[i] < (a + b)[|a| + j];
    }
  }

  lemma FlushedBalanced(b: Books, n: nat, intact: nat -> bool)
    requires Balanced(b, n)
    ensures Balanced(Flushed(b, intact), n)
  {
    var kept, stale := Keep(b.pending, intact), Keep(b.pending, (x: nat) => !intact(x));
    OrderedParts(b.recorded, b.pending);
    KeepIs(b.pending, intact);
    KeepIs(b.pending, (x: nat) => !intact(x));
    var f := Flushed(b, intact);
    forall x: nat ensures InOne(f, x)
      && (x < n <==> x in f.refused || x in f.recorded || x in f.pending || x in f.dropped) {
      assert InOne(b, x);
    }
    if b.recorded != [] {
      var top := b.recorded[|b.recorded| - 1];
      assert top in b.recorded && AllBelow(b.recorded, top + 1);
      forall x | x in kept ensures top + 1 <= x { assert x in b.pending; }
      OrderedJoin(b.recorded, kept, top + 1);
    } else {
      assert b.recorded + kept == kept;
    }
    assert f.recorded + f.pending == f.recorded;
  }

  /** One more article, in the part its outcome says. */
  function Counted(b: Books, n: nat, stored: bool, known: bool): Books {
    if !stored then b.(refused := b.refused + [n])
    else if known then b.(recorded := b.recorded + [n])
    else b.(pending := b.pending + [n])
  }

  lemma CountedBalanced(b: Books, n: nat, stored: bool, known: bool)
    requires Balanced(b, n) && (known ==> b.pending == [])
    ensures Balanced(Counted(b, n, stored, known), n + 1)
  {
    var c := Counted(b, n, stored, known);
    forall x: nat ensures InOne(c, x)
      && (x < n + 1 <==> x in c.refused || x in c.recorded || x in c.pending || x in c.dropped) {
      assert InOne(b, x);
    }
    if stored {
      var all := b.recorded + b.pending;
      forall x | x in all ensures x < n { assert x in b.recorded || x in b.pending; }
      OrderedJoin(all, [n], n);
      assert known ==> all == b.recorded;
      assert c.recorded + c.pending == all + [n];
    }
  }

  /** Of what waits, a flush records what is intact and drops the rest. */
  lemma FlushRecordsIntact(b: Books, intact: nat -> bool)
    requires Ordered(b.pending)
    ensures var f := Flushed(b, intact);
            && f.refused == b.refused && f.pending == [] && b.recorded <= f.recorded && b.dropped <= f.dropped
            && (forall x :: x in f.recorded <==> x in b.recorded || (x in b.pending && intact(x)))
            && forall x :: x in f.dropped <==> x in b.dropped || (x in b.pending && !intact(x))
  {
    KeepIs(b.pending, intact);
    KeepIs(b.pending, (x: nat) => !intact(x));
  }

  // ------------------------------------------------------- the worker's events

  /** The worker at one moment: whether the publisher task has ended and with what, where the
      loop stands, and how many articles were taken off the queue and collected. */
  datatype State = State(index: Option<bool>, books: Books, place: Place, received: nat, done: nat, cancelled: bool)

  /** The first article starts the worker, unless it is cancelled by then. */
  function Start(stop: bool): State {
    State(None, Books([], [], [], []), if stop then Over else Collecting(0), 1, 0, stop)
  }

  /** The first article is in hand, unless the worker is cancelled by then. */
  lemma StartIs()
    ensures Start(false) == State(None, Books([], [], [], []), Collecting(0), 1, 0, false)
    ensures Start(true) == State(None, Books([], [], [], []), Over, 1, 0, true)
  {
  }

  function Learned(s: State, found: bool, intact: nat -> bool): State {
    s.(index := Some(found), books := Flushed(s.books, intact))
  }

  /** The effect of one event; one that cannot happen now has none. */
  function After(s: State, e: Event): State {
    if s.place.Over? then s
    else match e
      case Collected(stored) =>
        if s.place.Collecting?
          then s.(books := Counted(s.books, s.done, stored, s.index.Some?), done := s.done + 1, place := Waiting) else s
      case PublisherArrives(found, intact) =>
        if s.index.Some? then s
        else Learned(s, found, intact).(place := if s.cancelled && s.place.Waiting? then Over else s.place)
      case ArticleArrives =>
        if s.place.Waiting? then s.(received := s.received + 1, place := if s.cancelled then Over
          else Collecting(s.done)) else s
      case QueueCloses(found, intact) =>
        if !s.place.Waiting? then s
        else if s.cancelled then s.(place := Over)
        else Learned(s, if s.index.Some? then s.index.value else found, intact).(place := Over)
      case CancelRequested => s.(cancelled := true)
  }

  function AfterAll(s: State, events: seq<Event>): State {
    if events == [] then s else After(AfterAll(s, events[..|events| - 1]), events[|events| - 1])
  }

  ghost predicate Inv(s: State) {
    && Balanced(s.books, s.done)
    && (s.index.Some? ==> s.books.pending == [])
    && (s.place.Collecting? ==> s.place.article == s.done && s.received == s.done + 1)
    && (s.place.Waiting? ==> s.received == s.done)
    && (s.place.Over? && !s.cancelled ==> s.index.Some? && s.received == s.done)
  }

  lemma AfterKeeps(s: State, e: Event)
    requires Inv(s)
    ensures Inv(After(s, e))
    ensures s.books.recorded <= After(s, e).books.recorded && s.books.dropped <= After(s, e).books.dropped
  {
    if !s.place.Over? {
      match e
      case Collected(stored) => CountedBalanced(s.books, s.done, stored, s.index.Some?);
      case PublisherArrives(found, intact) => FlushedBalanced(s.books, s.done, intact);
      case QueueCloses(found, intact) => FlushedBalanced(s.books, s.done, intact);
      case _ =>
    }
  }

  /** What each event does to a worker that is not over.  The article in hand is refused, or
      recorded when the publishers are known, or waits for them; then the worker waits for the next
      article, which a cancelled worker does not take.  The publishers are learned once. */
  lemma EventsDo(s: State, stored: bool, found: bool, intact: nat -> bool)
    requires !s.place.Over?
    ensures var t := After(s, Collected(stored));
            if !s.place.Collecting? then t == s
            else
              && t.(books := s.books) == s.(place := Waiting, done := s.done + 1)
              && t.books == (if !stored then s.books.(refused := s.books.refused + [s.done])
                             else if s.index.Some? then s.books.(recorded := s.books.recorded + [s.done])
                             else s.books.(pending := s.books.pending + [s.done]))
    ensures var t := After(s, ArticleArrives);
            if !s.place.Waiting? then t == s
            else t == s.(received := s.received + 1, place := if s.cancelled then Over else Collecting(s.done))
    ensures var t := After(s, PublisherArrives(found, intact));
            if s.index.Some? then t == s
            else t == s.(index := Some(found), books := Flushed(s.books, intact),
                         place := if s.cancelled && s.place.Waiting? then Over else s.place)
    ensures var t := After(s, QueueCloses(found, intact));
            if !s.place.Waiting? then t == s
            else if s.cancelled then t == s.(place := Over)
            else t == s.(index := if s.index.Some? then s.index else Some(found),
                         books := Flushed(s.books, intact), place := Over)
    ensures After(s, CancelRequested) == s.(cancelled := true)
  {
  }

  lemma {:induction false} RunKeeps(stop: bool, events: seq<Event>)
    ensures Inv(AfterAll(Start(stop), events))
  {
    if events != [] {
      RunKeeps(stop, events[..|events| - 1]);
      AfterKeeps(AfterAll(Start(stop), events[..|events| - 1]), events[|events| - 1]);
    }
  }

  /** Any interleaving: once the index is known nothing waits for it, and every collected
      article was refused, recorded, waits, or was dropped, exactly one of them, with the
      publishers recorded in queue order. */
  lemma RunAccounts(stop: bool, events: seq<Event>)
    ensures var s := AfterAll(Start(stop), events);
            && (s.index.Some? ==> s.books.pending == [])
            && (forall x: nat :: x < s.done <==>
               x in s.books.refused || x in s.books.recorded || x in s.books.pending || x in s.books.dropped)
            && (forall x: nat :: InOne(s.books, x))
            && Ordered(s.books.recorded + s.books.pending)
  {
    RunKeeps(stop, events);
  }

  /** A finish without cancellation leaves no article uncollected and none waiting: each is
      recorded exactly once and in queue order, but for the refused and the dropped. */
  lemma FinishRecordsAll(stop: bool, events: seq<Event>)
    requires var s := AfterAll(Start(stop), events); s.place.Over? && !s.cancelled
    ensures var s := AfterAll(Start(stop), events);
            && s.done == s.received && s.books.pending == [] && Ordered(s.books.recorded)
            && forall x: nat :: x in s.books.recorded <==>
               x < s.received && x !in s.books.refused && x !in s.books.dropped
  {
    RunKeeps(stop, events);
    var s := AfterAll(Start(stop), events);
    OrderedParts(s.books.recorded, s.books.pending);
    forall x: nat ensures x in s.books.recorded <==> x < s.received && x !in s.books.refused && x !in s.books.dropped {
      assert InOne(s.books, x);
    }
  }

  // ---------------------------------------------------------------- the worker

  class Worker {
    var index: Option<bool>
    var pending: seq<nat>
    var place: Place
    var received: nat
    var done: nat
    var cancelled: bool
    var refused: seq<nat>
    var recorded: seq<nat>
    var dropped: seq<nat>

    ghost function Now(): State
      reads this
    {
      State(index, Books(refused, recorded, pending, dropped), place, received, done, cancelled)
    }

    constructor (stop: bool)
      ensures Now() == Start(stop)
    {
      index, pending, place, received, done, cancelled := None, [], if stop then Over else Collecting(0), 1, 0, stop;
      refused, recorded, dropped := [], [], [];
    }

    /** Fills in the publishers of the waiting articles. */
    method Flush(intact: nat -> bool)
      modifies this`pending, this`recorded, this`dropped
      ensures Now() == old(Now()).(books := Flushed(old(Now()).books, intact))
    {
      ghost var before := Now().books;
      var waiting := pending;
      for i := 0 to |waiting|
        invariant recorded == before.recorded + Keep(waiting[..i], intact)
        invariant dropped == before.dropped + Keep(waiting[..i], (x: nat) => !intact(x))
        invariant pending == before.pending
      {
        assert waiting[..i + 1][..i] == waiting[..i];
        if intact(waiting[i]) { recorded := recorded + [waiting[i]]; } else { dropped := dropped + [waiting[i]]; }
      }
      assert waiting[..|waiting|] == waiting;
      pending := [];
    }

    /** The article in hand is collected, and saved unless its row changed. */
    method Collect(article: nat, stored: bool)
      requires place == Collecting(article) && article == done
      modifies this
      ensures Now() == After(old(Now()), Collected(stored))
    {
      if !stored {
        refused := refused + [article];
      } else if index.Some? {
        recorded := recorded + [article];
      } else {
        pending := pending + [article];
      }
      done := done + 1;
      place := Waiting;
    }

    /** The queue is closed: an uncancelled worker waits for the index and fills in the rest. */
    method Finish(found: bool, intact: nat -> bool)
      requires place.Waiting?
      modifies this
      ensures Now() == After(old(Now()), QueueCloses(found, intact))
    {
      if !cancelled {
        if index == None { index := Some(found); }
        Flush(intact);
      }
      place := Over;
    }

    method Handle(event: Event)
      requires place.Collecting? ==> place.article == done
      modifies this
      ensures Now() == After(old(Now()), event)
    {
      if place.Over? { return; }
      match event
      case Collected(stored) =>
        if place.Collecting? { Collect(place.article, stored); }
      case PublisherArrives(found, intact) =>
        if index == None {
          index := Some(found);
          Flush(intact);
          if cancelled && place.Waiting? { place := Over; }
        }
      case ArticleArrives =>
        if place.Waiting? {
          received := received + 1;
          place := if cancelled then Over else Collecting(done);
        }
      case QueueCloses(found, intact) =>
        if place.Waiting? { Finish(found, intact); }
      case CancelRequested =>
        cancelled := true;
    }
  }

  method Work(stop: bool, events: seq<Event>) returns (w: Worker)
    ensures w.Now() == AfterAll(Start(stop), events)
  {
    w := new Worker(stop);
    for i := 0 to |events|
      invariant fresh(w) && w.Now() == AfterAll(Start(stop), events[..i])
    {
      RunKeeps(stop, events[..i]);
      assert events[..i + 1][..i] == events[..i];
      w.Handle(events[i]);
    }
    assert events[..|events|] == events;
  }
}
