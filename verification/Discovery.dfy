/** Phase 1 of an Atlas cycle. */
module Discovery {
  import opened Wrappers

  /* Two providers are paged for the latest headlines.

     The state is split the way the program splits it.  `Durable` is what the store
     holds and survives a crash; `Memory` is what one invocation holds and loses.
     Every event is one step that the program can take or suffer, so a run is any
     sequence of events: pauses, crashes and resumes may fall anywhere. */

  const TARGET: nat := 50
  const MAX_PAGES: nat := 5

  datatype Provider = GNews | NewsData

  type Country = string

  /** The saved position.  Phases above 1 use only `phase`. */
  datatype Cursor = Cursor(phase: nat, chunk: nat, leg: Provider, token: string, kept: nat)

  /** The part of the run statistics that phase 1 reads or writes. */
  datatype Stats = Stats(counts: multiset<Country>, failures: nat, retry: Option<Cursor>)

  /** `hits` is a history field: the program keeps a page's hits only summed in `counts`. */
  datatype Receipt = Receipt(kept: nat, token: string, stop: bool, hits: multiset<Country>)

  type Book = map<(Provider, nat), Receipt>

  datatype Durable = Durable(cursor: Cursor, stats: Stats, book: Book)

  datatype Memory =
    | Down
    | Paging(at: Cursor, stats: Stats, saved: Cursor)
    | Applied(at: Cursor, stats: Stats, saved: Cursor, receipt: Receipt)
    | Committed(at: Cursor, stats: Stats, saved: Cursor, receipt: Receipt)
    | Later(stats: Stats, phase: nat)

  datatype State = State(store: Durable, memory: Memory)

  datatype Event =
    | Resume
    | Crash
    | Pause
    | ReuseReceipt
    | QuotaSpent
    | Fault(quotaFault: bool)
    | Page(hits: seq<Country>, more: Option<string>)
    | Commit
    | Advance
    | LeaveProvider
    | LaterFault
    | NextPhase
    | LaterPark
    | Finish(incomplete: bool, indexOnly: bool)

  const FirstCursor := Cursor(1, 0, GNews, "", 0)
  const SecondPhase := PhaseStart(2)
  const LAST_PHASE: nat := 6

  const Fresh := State(Durable(FirstCursor, Stats(multiset{}, 0, None), map[]), Down)

  // ---------------------------------------------------------------- steps

  /** The guard of the page loop. */
  predicate MorePages(c: Cursor) {
    c.kept < TARGET && c.chunk < MAX_PAGES
  }

  /** The cursor of a phase after the first. */
  function PhaseStart(phase: nat): Cursor { Cursor(phase, 0, GNews, "", 0) }

  /** Phases 4 and 5 are saved as one: the cursor goes from 4 to 6. */
  function PhaseAfter(phase: nat): nat { if phase == 4 then 6 else phase + 1 }

  function Key(c: Cursor): (Provider, nat) { (c.leg, c.chunk) }

  /** Where the loop over providers goes after the current one: the second provider,
      or out of phase 1, which saves the phase-2 cursor with the statistics. */
  function NextProvider(d: Durable, leg: Provider, stats: Stats, saved: Cursor): State {
    if leg == GNews then
      var at := if saved.leg == NewsData then saved.(phase := 1) else Cursor(1, 0, NewsData, "", 0);
      State(d, Paging(at, stats, saved))
    else
      State(d.(cursor := SecondPhase, stats := stats), Later(stats, 2))
  }

  /** A quota fault is expected and leaves no mark here; any other fault is counted and
      the first one is remembered as the place to retry from. */
  function RecordFault(stats: Stats, quotaFault: bool, at: Cursor): Stats {
    if quotaFault then stats
    else stats.(failures := stats.failures + 1,
                retry := if stats.retry.None? then Some(at) else stats.retry)
  }

  function Load(d: Durable): State {
    var stats := if d.cursor.phase <= 2 then d.stats.(failures := 0, retry := None) else d.stats;
    var d' := d.(stats := stats);
    if d.cursor.phase <= 1
    then State(d', Paging(d.cursor.(phase := 1), stats, d.cursor))
    else State(d', Later(stats, d.cursor.phase))
  }

  function Truncate(hits: seq<Country>, room: nat): seq<Country> {
    if |hits| <= room then hits else hits[..room]
  }

  /** A readable reply: the hits are counted in memory; nothing is saved yet. */
  function ApplyPage(at: Cursor, stats: Stats, saved: Cursor, hits: seq<Country>, more: Option<string>): Memory
    requires MorePages(at)
  {
    var kept := Truncate(hits, TARGET - at.kept);
    var total := at.kept + |kept|;
    var token := if at.leg == NewsData && more.Some? then more.value else "";
    var stop := more.None? || total >= TARGET || at.chunk + 1 >= MAX_PAGES;
    Applied(at, stats.(counts := stats.counts + multiset(kept)), saved, Receipt(total, token, stop, multiset(kept)))
  }

  function PageStep(d: Durable, at: Cursor, stats: Stats, saved: Cursor, e: Event): State {
    var here := State(d, Paging(at, stats, saved));
    if !MorePages(at) then
      if e.LeaveProvider? then NextProvider(d, at.leg, stats, saved) else here
    else if e.Pause? then
      State(d.(cursor := at, stats := stats), Down)
    else if Key(at) in d.book then
      var r := d.book[Key(at)];
      if !e.ReuseReceipt? then here
      else if r.stop then NextProvider(d, at.leg, stats, saved)
      else State(d, Paging(at.(chunk := at.chunk + 1, kept := r.kept, token := r.token), stats, saved))
    else match e
      case QuotaSpent => NextProvider(d, at.leg, stats, saved)
      case Fault(q) => NextProvider(d, at.leg, RecordFault(stats, q, at), saved)
      case Page(hits, more) => State(d, ApplyPage(at, stats, saved, hits, more))
      case _ => here
  }

  /** One event.  An event that cannot happen in the current state changes nothing. */
  function Step(s: State, e: Event): State {
    var d := s.store;
    if e.Crash? then State(d, Down)
    else match s.memory
      case Down => if e.Resume? then Load(d) else s
      case Paging(at, stats, saved) => PageStep(d, at, stats, saved, e)
      case Applied(at, stats, saved, r) =>
        // Receipt, cursor and statistics are one transaction.
        if e.Commit?
        then State(Durable(at, stats, d.book[Key(at) := r]), Committed(at, stats, saved, r))
        else s
      case Committed(at, stats, saved, r) =>
        if !e.Advance? then s
        else if r.stop then NextProvider(d, at.leg, stats, saved)
        else
          var next := Cursor(1, at.chunk + 1, at.leg, r.token, r.kept);
          State(d.(cursor := next, stats := stats), Paging(next, stats, next))
      case Later(stats, phase) =>
        match e
        case LaterFault => if phase == 2 then State(d, Later(RecordFault(stats, false, SecondPhase), phase)) else s
        case NextPhase =>
          if phase < LAST_PHASE
          then State(d.(cursor := PhaseStart(PhaseAfter(phase)), stats := stats), Later(stats, PhaseAfter(phase)))
          else s
        case LaterPark => State(d.(cursor := PhaseStart(phase), stats := stats), Down)
        case Finish(incomplete, indexOnly) =>
          // A cycle that ends incomplete goes back to the first fault it remembers.
          if phase < LAST_PHASE then s
          else
            var unfinished := incomplete || stats.failures > 0;
            var next := if !unfinished then d.cursor
                        else if stats.retry.Some? then stats.retry.value
                        else PhaseStart(if indexOnly then LAST_PHASE else 3);
            State(d.(cursor := next, stats := stats), Down)
        case _ => s
  }

  function Run(s: State, events: seq<Event>): State
    decreases |events|
  {
    if events == [] then s else Run(Step(s, events[0]), events[1..])
  }

  // ------------------------------------------------------------ accounting

  function PageHits(b: Book, leg: Provider, page: nat): multiset<Country> {
    if (leg, page) in b then b[(leg, page)].hits else multiset{}
  }

  /** All hits of the first `n` pages of one provider. */
  function Hits(b: Book, leg: Provider, n: nat): multiset<Country> {
    if n == 0 then multiset{} else Hits(b, leg, n - 1) + PageHits(b, leg, n - 1)
  }

  function Sum(b: Book, n: nat): multiset<Country> {
    Hits(b, GNews, n) + Hits(b, NewsData, n)
  }

  /** `counts` is the hits of every receipted page of both providers, each page once.
      No page lies beyond the limit, so any bound from the limit on says the same. */
  ghost predicate Counted(b: Book, counts: multiset<Country>) {
    forall n: nat :: n >= MAX_PAGES ==> counts == Sum(b, n)
  }

  /** Pages `0..page` are receipted and none of them ended the provider. */
  ghost predicate Before(b: Book, leg: Provider, page: nat) {
    forall q: nat :: q < page ==> (leg, q) in b && !b[(leg, q)].stop
  }

  /** A receipt says how many hits its provider has kept so far; the pages before it
      are receipted and did not end the provider. */
  ghost predicate ReceiptOk(b: Book, leg: Provider, p: nat)
    requires (leg, p) in b
  {
    var r := b[(leg, p)];
    && p < MAX_PAGES
    && r.kept == |Hits(b, leg, p + 1)| <= TARGET
    && (!r.stop ==> r.kept < TARGET && p + 1 < MAX_PAGES)
    && Before(b, leg, p)
  }

  ghost predicate BookOk(b: Book) {
    forall leg: Provider, p: nat {:trigger ReceiptOk(b, leg, p)} :: (leg, p) in b ==> ReceiptOk(b, leg, p)
  }

  /** A cursor from which paging may go on: its `kept` and `token` are those that the
      pages before it left. */
  ghost predicate Point(b: Book, c: Cursor) {
    && c.chunk <= MAX_PAGES
    && Before(b, c.leg, c.chunk)
    && c.kept == |Hits(b, c.leg, c.chunk)|
    && c.token == if c.chunk == 0 then "" else b[(c.leg, c.chunk - 1)].token
  }

  ghost predicate Resumable(b: Book, c: Cursor) {
    c.phase <= 1 ==> Point(b, c)
  }

  ghost predicate RetryOk(b: Book, stats: Stats) {
    stats.retry.Some? ==> Resumable(b, stats.retry.value)
  }

  ghost predicate PagingOk(b: Book, at: Cursor, stats: Stats, saved: Cursor) {
    at.phase == 1 && saved.phase <= 1 && Point(b, at) && Point(b, saved) && RetryOk(b, stats)
  }

  ghost predicate MemoryOk(b: Book, m: Memory) {
    match m
    case Down => true
    case Later(stats, phase) => phase >= 2 && Counted(b, stats.counts) && RetryOk(b, stats)
    case Paging(at, stats, saved) => Counted(b, stats.counts) && PagingOk(b, at, stats, saved)
    case Committed(at, stats, saved, r) =>
      Counted(b, stats.counts) && PagingOk(b, at, stats, saved) && Key(at) in b && b[Key(at)] == r
    case Applied(at, stats, saved, r) =>
      && r.hits <= stats.counts && Counted(b, stats.counts - r.hits)
      && PagingOk(b, at, stats, saved) && MorePages(at) && Key(at) !in b
      && r.kept == at.kept + |r.hits| <= TARGET
      && (!r.stop ==> r.kept < TARGET && at.chunk + 1 < MAX_PAGES)
  }

  ghost predicate Inv(s: State) {
    var d := s.store;
    && BookOk(d.book)
    && Counted(d.book, d.stats.counts) && RetryOk(d.book, d.stats)
    && Resumable(d.book, d.cursor)
    && MemoryOk(d.book, s.memory)
  }

  // ---------------------------------------------------------------- proofs

  /** Hits depend on the pages below `n` only. */
  lemma {:induction false} HitsSame(b: Book, b': Book, leg: Provider, n: nat)
    requires forall q: nat :: q < n ==> PageHits(b, leg, q) == PageHits(b', leg, q)
    ensures Hits(b, leg, n) == Hits(b', leg, n)
  {
    if n > 0 { HitsSame(b, b', leg, n - 1); }
  }

  /** One more page adds its hits and nothing else. */
  lemma {:induction false} HitsGrow(b: Book, c: Cursor, r: Receipt, n: nat)
    requires Key(c) !in b && c.chunk < n
    ensures Hits(b[Key(c) := r], c.leg, n) == Hits(b, c.leg, n) + r.hits
  {
    var b' := b[Key(c) := r];
    assert PageHits(b', c.leg, c.chunk) == r.hits && PageHits(b, c.leg, c.chunk) == multiset{};
    if n == c.chunk + 1 {
      forall q: nat | q < n - 1 ensures PageHits(b, c.leg, q) == PageHits(b', c.leg, q) {}
      HitsSame(b, b', c.leg, n - 1);
    } else {
      HitsGrow(b, c, r, n - 1);
      assert PageHits(b, c.leg, n - 1) == PageHits(b', c.leg, n - 1);
    }
  }

  lemma OtherSame(b: Book, c: Cursor, r: Receipt, other: Provider, n: nat)
    requires other != c.leg
    ensures Hits(b[Key(c) := r], other, n) == Hits(b, other, n)
  {
    HitsSame(b, b[Key(c) := r], other, n);
  }

  lemma SumGrows(b: Book, c: Cursor, r: Receipt, n: nat)
    requires Key(c) !in b && c.chunk < n
    ensures Sum(b[Key(c) := r], n) == Sum(b, n) + r.hits
  {
    HitsGrow(b, c, r, n);
    OtherSame(b, c, r, if c.leg == GNews then NewsData else GNews, n);
  }

  /** Writing the receipt of an unreceipted page keeps every saved position valid. */
  lemma PointKept(b: Book, at: Cursor, r: Receipt, c: Cursor)
    requires Key(at) !in b && Point(b, c)
    ensures Point(b[Key(at) := r], c)
  {
    forall q: nat | q < c.chunk ensures PageHits(b, c.leg, q) == PageHits(b[Key(at) := r], c.leg, q) {
      assert (c.leg, q) in b;
    }
    HitsSame(b, b[Key(at) := r], c.leg, c.chunk);
  }

  lemma ReceiptKept(b: Book, at: Cursor, r: Receipt, leg: Provider, p: nat)
    requires Key(at) !in b && (leg, p) in b && ReceiptOk(b, leg, p)
    ensures ReceiptOk(b[Key(at) := r], leg, p)
  {
    forall q: nat | q < p + 1 ensures PageHits(b, leg, q) == PageHits(b[Key(at) := r], leg, q) {
      assert q < p ==> (leg, q) in b;
    }
    HitsSame(b, b[Key(at) := r], leg, p + 1);
  }

  lemma CountedGrows(b: Book, at: Cursor, counts: multiset<Country>, r: Receipt)
    requires r.hits <= counts && Counted(b, counts - r.hits) && Key(at) !in b && at.chunk < MAX_PAGES
    ensures Counted(b[Key(at) := r], counts)
  {
    var b' := b[Key(at) := r];
    forall n: nat | n >= MAX_PAGES ensures counts == Sum(b', n) { SumGrows(b, at, r, n); }
  }

  lemma ReceiptAdded(b: Book, at: Cursor, r: Receipt)
    requires BookOk(b) && Point(b, at) && MorePages(at) && Key(at) !in b
    requires r.kept == at.kept + |r.hits| <= TARGET && (!r.stop ==> r.kept < TARGET && at.chunk + 1 < MAX_PAGES)
    ensures BookOk(b[Key(at) := r])
  {
    var b' := b[Key(at) := r];
    PointKept(b, at, r, at);
    forall leg: Provider, p: nat | (leg, p) in b' ensures ReceiptOk(b', leg, p) {
      if (leg, p) == Key(at) {
        assert Hits(b', leg, p + 1) == Hits(b', leg, p) + r.hits;
      } else {
        assert ReceiptOk(b, leg, p);
        ReceiptKept(b, at, r, leg, p);
      }
    }
  }

  /** The transaction that writes receipt, cursor and statistics keeps the invariant. */
  lemma CommitKeeps(s: State)
    requires Inv(s) && s.memory.Applied?
    ensures Inv(Step(s, Commit))
  {
    var Applied(at, stats, saved, r) := s.memory;
    var b := s.store.book;
    ReceiptAdded(b, at, r);
    CountedGrows(b, at, stats.counts, r);
    PointKept(b, at, r, at);
    PointKept(b, at, r, saved);
    if stats.retry.Some? && stats.retry.value.phase <= 1 { PointKept(b, at, r, stats.retry.value); }
  }

  lemma NextProviderKeeps(d: Durable, leg: Provider, stats: Stats, saved: Cursor)
    requires BookOk(d.book) && Counted(d.book, d.stats.counts) && RetryOk(d.book, d.stats)
             && Resumable(d.book, d.cursor)
    requires Counted(d.book, stats.counts) && RetryOk(d.book, stats) && saved.phase <= 1 && Point(d.book, saved)
    ensures Inv(NextProvider(d, leg, stats, saved))
  {
  }

  lemma ApplyKeeps(b: Book, at: Cursor, stats: Stats, saved: Cursor, hits: seq<Country>, more: Option<string>)
    requires Counted(b, stats.counts) && PagingOk(b, at, stats, saved) && MorePages(at) && Key(at) !in b
    ensures MemoryOk(b, ApplyPage(at, stats, saved, hits, more))
  {
    var kept := multiset(Truncate(hits, TARGET - at.kept));
    assert (stats.counts + kept) - kept == stats.counts;
  }

  lemma ReuseKeeps(b: Book, at: Cursor)
    requires BookOk(b) && Point(b, at) && Key(at) in b && !b[Key(at)].stop
    ensures Point(b, at.(chunk := at.chunk + 1, kept := b[Key(at)].kept, token := b[Key(at)].token))
  {
    assert ReceiptOk(b, at.leg, at.chunk);
  }

  lemma LeaveKeeps(d: Durable, at: Cursor, stats: Stats, saved: Cursor)
    requires Inv(State(d, Paging(at, stats, saved)))
    ensures Inv(NextProvider(d, at.leg, stats, saved))
  {
    NextProviderKeeps(d, at.leg, stats, saved);
  }

  lemma FaultKeeps(d: Durable, at: Cursor, stats: Stats, saved: Cursor, quotaFault: bool)
    requires Inv(State(d, Paging(at, stats, saved)))
    ensures Inv(NextProvider(d, at.leg, RecordFault(stats, quotaFault, at), saved))
  {
    NextProviderKeeps(d, at.leg, RecordFault(stats, quotaFault, at), saved);
  }

  lemma ParkKeeps(d: Durable, at: Cursor, stats: Stats, saved: Cursor)
    requires Inv(State(d, Paging(at, stats, saved)))
    ensures Inv(State(d.(cursor := at, stats := stats), Down))
  {
  }

  /** Going on from a page that already has its receipt. */
  lemma NextKeeps(d: Durable, at: Cursor, stats: Stats, saved: Cursor)
    requires Inv(State(d, Paging(at, stats, saved))) && Key(at) in d.book && !d.book[Key(at)].stop
    ensures var r := d.book[Key(at)]; Inv(State(d,
            Paging(at.(chunk := at.chunk + 1, kept := r.kept, token := r.token), stats, saved)))
  {
    ReuseKeeps(d.book, at);
  }

  lemma ReadKeeps(d: Durable, at: Cursor, stats: Stats, saved: Cursor, hits: seq<Country>, more: Option<string>)
    requires Inv(State(d, Paging(at, stats, saved))) && MorePages(at) && Key(at) !in d.book
    ensures Inv(State(d, ApplyPage(at, stats, saved, hits, more)))
  {
    ApplyKeeps(d.book, at, stats, saved, hits, more);
  }

  /** What follows a page that may be asked for. */
  lemma AskKeeps(d: Durable, at: Cursor, stats: Stats, saved: Cursor, e: Event)
    requires Inv(State(d, Paging(at, stats, saved))) && MorePages(at) && Key(at) !in d.book && !e.Pause?
    ensures Inv(PageStep(d, at, stats, saved, e))
  {
    match e
    case QuotaSpent => LeaveKeeps(d, at, stats, saved);
    case Fault(q) => FaultKeeps(d, at, stats, saved, q);
    case Page(hits, more) => ReadKeeps(d, at, stats, saved, hits, more);
    case _ =>
  }

  lemma PageStepKeeps(s: State, e: Event)
    requires Inv(s) && s.memory.Paging?
    ensures Inv(Step(s, e))
  {
    var Paging(at, stats, saved) := s.memory;
    if e.Crash? {
      assert Inv(State(s.store, Down));
    } else if !MorePages(at) {
      LeaveKeeps(s.store, at, stats, saved);
    } else if e.Pause? {
      ParkKeeps(s.store, at, stats, saved);
    } else if Key(at) !in s.store.book {
      AskKeeps(s.store, at, stats, saved, e);
    } else if s.store.book[Key(at)].stop {
      LeaveKeeps(s.store, at, stats, saved);
    } else {
      NextKeeps(s.store, at, stats, saved);
    }
  }

  lemma AdvanceKeeps(s: State, e: Event)
    requires Inv(s) && s.memory.Committed?
    ensures Inv(Step(s, e))
  {
    var Committed(at, stats, saved, r) := s.memory;
    if e.Crash? || !e.Advance? {
      assert Inv(State(s.store, Down));
    } else if r.stop {
      NextProviderKeeps(s.store, at.leg, stats, saved);
    } else {
      SaveNextKeeps(s.store, at, stats, r);
    }
  }

  /** Saving the position of the page after a receipted one. */
  lemma SaveNextKeeps(d: Durable, at: Cursor, stats: Stats, r: Receipt)
    requires BookOk(d.book) && Counted(d.book, stats.counts) && RetryOk(d.book, stats)
    requires at.phase == 1 && Point(d.book, at) && Key(at) in d.book && d.book[Key(at)] == r
    ensures var next := Cursor(1, at.chunk + 1, at.leg, r.token, r.kept);
            !r.stop ==> Inv(State(d.(cursor := next, stats := stats), Paging(next, stats, next)))
  {
    if !r.stop { ReuseKeeps(d.book, at); }
  }

  lemma LaterKeeps(s: State, e: Event)
    requires Inv(s) && (s.memory.Later? || s.memory.Down?)
    ensures Inv(Step(s, e))
  {
    match s.memory
    case Down => if e.Resume? { LoadKeeps(s.store); }
    case Later(stats, phase) =>
      match e
      case LaterFault => assert Inv(State(s.store, Later(RecordFault(stats, false, SecondPhase), phase)));
      case LaterPark => assert Inv(State(s.store.(cursor := PhaseStart(phase), stats := stats), Down));
      case NextPhase => assert Inv(State(s.store.(cursor := PhaseStart(PhaseAfter(phase)), stats := stats),
        Later(stats, PhaseAfter(phase))));
      case _ =>
  }

  lemma LoadKeeps(d: Durable)
    requires Inv(State(d, Down))
    ensures Inv(Load(d))
  {
  }

  lemma StepKeeps(s: State, e: Event)
    requires Inv(s)
    ensures Inv(Step(s, e))
  {
    match s.memory
    case Applied(_, _, _, _) => CommitKeeps(s);
    case Paging(_, _, _) => PageStepKeeps(s, e);
    case Committed(_, _, _, _) => AdvanceKeeps(s, e);
    case _ => LaterKeeps(s, e);
  }

  lemma {:induction false} RunKeeps(s: State, events: seq<Event>)
    requires Inv(s)
    ensures Inv(Run(s, events))
    decreases |events|
  {
    if events != [] {
      StepKeeps(s, events[0]);
      RunKeeps(Step(s, events[0]), events[1..]);
    }
  }

  lemma {:induction false} EmptyBook(leg: Provider, n: nat)
    ensures Hits(map[], leg, n) == multiset{}
  {
    if n > 0 { EmptyBook(leg, n - 1); }
  }

  lemma ReachedOk(events: seq<Event>)
    ensures Inv(Run(Fresh, events))
  {
    forall n: nat ensures Sum(map[], n) == multiset{} { EmptyBook(GNews, n); EmptyBook(NewsData, n); }
    RunKeeps(Fresh, events);
  }

  // ---------------------------------------------------------- main results

  /** However a cycle is cut by faults, pauses and crashes, the saved counts are the
      hits of the receipted pages, each page once. */
  lemma CountsAreReceipted(events: seq<Event>)
    ensures Counted(Run(Fresh, events).store.book, Run(Fresh, events).store.stats.counts)
  {
    ReachedOk(events);
  }

  /** The receipted pages of a provider are a prefix of its pages, and each carries the
      running total of hits, at most fifty. */
  lemma ReceiptsFormPrefix(events: seq<Event>, leg: Provider, p: nat, q: nat)
    requires (leg, p) in Run(Fresh, events).store.book && q <= p
    ensures (leg, q) in Run(Fresh, events).store.book
    ensures p < MAX_PAGES && Run(Fresh, events).store.book[(leg, p)].kept ==
            |Hits(Run(Fresh, events).store.book, leg, p + 1)| <= TARGET
    ensures q < p ==> !Run(Fresh, events).store.book[(leg, q)].stop
  {
    ReachedOk(events);
    assert ReceiptOk(Run(Fresh, events).store.book, leg, p);
  }

  lemma {:induction false} ProviderTotal(b: Book, leg: Provider, n: nat)
    requires BookOk(b)
    ensures |Hits(b, leg, n)| <= TARGET
  {
    if n > 0 {
      ProviderTotal(b, leg, n - 1);
      if (leg, n - 1) in b { assert ReceiptOk(b, leg, n - 1); }
    }
  }

  /** A cycle never counts more than a hundred headlines, so its 32-bit counters
      cannot overflow. */
  lemma AtMostHundred(events: seq<Event>)
    ensures |Run(Fresh, events).store.stats.counts| <= 100
  {
    ReachedOk(events);
    var b := Run(Fresh, events).store.book;
    var n: nat := |b| + MAX_PAGES;
    assert Run(Fresh, events).store.stats.counts == Sum(b, n);
    ProviderTotal(b, GNews, n);
    ProviderTotal(b, NewsData, n);
  }

  lemma {:induction false} RunSplit(s: State, first: seq<Event>, second: seq<Event>)
    ensures Run(s, first + second) == Run(Run(s, first), second)
    decreases |first|
  {
    if first == [] {
      assert first + second == second;
    } else {
      assert (first + second)[1..] == first[1..] + second;
      RunSplit(Step(s, first[0]), first[1..], second);
    }
  }

  lemma {:induction false} BookGrows(s: State, events: seq<Event>, key: (Provider, nat))
    requires Inv(s) && key in s.store.book
    ensures key in Run(s, events).store.book && Run(s, events).store.book[key] == s.store.book[key]
    decreases |events|
  {
    if events != [] {
      StepKeeps(s, events[0]);
      BookGrows(Step(s, events[0]), events[1..], key);
    }
  }

  /** A page that is receipted is never applied again: its receipt stands for the rest
      of the run, and no later step is about to commit that page. */
  lemma ReceiptIsFinal(before: seq<Event>, after: seq<Event>, key: (Provider, nat))
    requires key in Run(Fresh, before).store.book
    ensures var s := Run(Fresh, before + after);
            && key in s.store.book && s.store.book[key] == Run(Fresh, before).store.book[key]
            && (s.memory.Applied? ==> Key(s.memory.at) != key)
  {
    RunSplit(Fresh, before, after);
    ReachedOk(before);
    BookGrows(Run(Fresh, before), after, key);
    ReachedOk(before + after);
  }

  /** Whatever page is asked for next, on a first pass or after any resume, is asked for
      with the token that the previous page's receipt recorded. */
  lemma TokenChains(events: seq<Event>)
    requires Run(Fresh, events).memory.Paging? && Run(Fresh, events).memory.at.chunk > 0
    ensures var s := Run(Fresh, events);
            var previous := (s.memory.at.leg, s.memory.at.chunk - 1);
            previous in s.store.book && s.memory.at.token == s.store.book[previous].token
  {
    ReachedOk(events);
  }

  // ------------------------------------------------------- what a page counts

  lemma StepTwice(s: State, e: Event, e': Event)
    ensures Run(s, [e, e']) == Step(Step(s, e), e')
  {
    assert [e, e'][1..] == [e'] && [e'][1..] == [];
    assert Run(Step(s, e), [e']) == Run(Step(Step(s, e), e'), []);
  }

  /** The receipt of a page with these headlines. */
  function ReceiptFor(at: Cursor, hits: seq<Country>, more: Option<string>): Receipt
    requires at.kept <= 50
  {
    var n := if |hits| < 50 - at.kept then |hits| else 50 - at.kept;
    Receipt(at.kept + n, if at.leg == NewsData && more.Some? then more.value else "",
            more.None? || at.kept + n == 50 || at.chunk == 4, multiset(hits[..n]))
  }

  lemma PageIsRead(s: State, hits: seq<Country>, more: Option<string>)
    requires s.memory.Paging? && s.memory.at.kept < 50 && s.memory.at.chunk < 5 && Key(s.memory.at) !in s.store.book
    ensures var Paging(at, stats, saved) := s.memory;
            var r := ReceiptFor(at, hits, more);
            Step(s, Page(hits, more)) ==
              State(s.store, Applied(at, stats.(counts := stats.counts + r.hits), saved, r))
  {
    assert hits[..|hits|] == hits;
  }

  /** A page counts its headlines up to fifty for its provider, and its receipt says so. */
  lemma PageCounts(before: seq<Event>, hits: seq<Country>, more: Option<string>)
    requires var s := Run(Fresh, before);
             s.memory.Paging? && s.memory.at.kept < 50 && s.memory.at.chunk < 5
             && (s.memory.at.leg, s.memory.at.chunk) !in s.store.book
    ensures var s, t := Run(Fresh, before), Run(Run(Fresh, before), [Page(hits, more), Commit]);
            var at, key := s.memory.at, (s.memory.at.leg, s.memory.at.chunk);
            var n := if |hits| < 50 - at.kept then |hits| else 50 - at.kept;
            && key in t.store.book
            && var r := t.store.book[key];
            && r.hits == multiset(hits[..n]) && r.kept == at.kept + n
            && (r.stop <==> more.None? || r.kept == 50 || at.chunk == 4)
            && r.token == (if at.leg == NewsData && more.Some? then more.value else "")
            && t.store.book == s.store.book[key := r] && t.store.cursor == at
            && t.store.stats.counts == s.store.stats.counts + r.hits
            && t.store.stats == s.memory.stats.(counts := t.store.stats.counts)
            && t.memory == Committed(at, t.store.stats, s.memory.saved, r)
  {
    var s := Run(Fresh, before);
    ReachedOk(before);
    StepTwice(s, Page(hits, more), Commit);
    PageIsRead(s, hits, more);
    SameCounts(s.store.book, s.memory.stats.counts, s.store.stats.counts);
  }

  /** The receipts leave no choice of counts. */
  lemma SameCounts(b: Book, mine: multiset<Country>, saved: multiset<Country>)
    requires Counted(b, mine) && Counted(b, saved)
    ensures mine == saved
  {
    assert mine == Sum(b, MAX_PAGES) == saved;
  }

  // ------------------------------------------------------ where a cycle goes on

  /** A provider ends by a fault, without quota, when it is full or out of pages, or by a receipt
      that says so; then comes the second provider, at its saved place if the cycle was resumed in
      it, or the second phase.  A real fault is counted, and the first one remembered. */
  lemma ProviderEnds(s: State, e: Event)
    requires s.memory.Paging?
    requires var at, key := s.memory.at, (s.memory.at.leg, s.memory.at.chunk);
             if at.kept >= 50 || at.chunk >= 5 then e.LeaveProvider?
             else if key in s.store.book then s.store.book[key].stop && e.ReuseReceipt?
             else e.QuotaSpent? || e.Fault?
    ensures var t, mine, saved := Step(s, e), s.memory.stats, s.memory.saved;
            var stats := if e != Fault(false) then mine
                         else Stats(mine.counts, mine.failures + 1,
                                    if mine.retry.Some? then mine.retry else Some(s.memory.at));
            if s.memory.at.leg == GNews then
              t == State(s.store, Paging(if saved.leg == NewsData then saved.(phase := 1)
                else Cursor(1, 0, NewsData, "", 0),
                                         stats, saved))
            else t == State(Durable(Cursor(2, 0, GNews, "", 0), stats, s.store.book), Later(stats, 2))
  {
  }

  /** In the first two phases a resume forgets the faults; afterwards it forgets nothing. */
  lemma ResumeForgets(d: Durable)
    ensures var t := Step(State(d, Down), Resume);
            && t.store.cursor == d.cursor && t.store.book == d.book && t.memory.stats == t.store.stats
            && t.store.stats == (if d.cursor.phase <= 2 then Stats(d.stats.counts, 0, None) else d.stats)
            && (d.cursor.phase <= 1 ==> t.memory == Paging(d.cursor.(phase := 1), t.store.stats, d.cursor))
            && (d.cursor.phase > 1 ==> t.memory == Later(t.store.stats, d.cursor.phase))
  {
  }

  /** After the receipt the next place is saved with the statistics, unless the page ends the
      provider. */
  lemma NextPlaceIsSaved(s: State)
    requires s.memory.Committed? && !s.memory.receipt.stop
    ensures var r, m := s.memory.receipt, s.memory;
            var next := Cursor(1, m.at.chunk + 1, m.at.leg, r.token, r.kept);
            Step(s, Advance) == State(Durable(next, m.stats, s.store.book), Paging(next, m.stats, next))
  {
  }

  /** A receipt that is there already stands for its page. */
  lemma ReceiptIsReused(s: State)
    requires s.memory.Paging? && s.memory.at.kept < 50 && s.memory.at.chunk < 5
    requires var key := (s.memory.at.leg, s.memory.at.chunk); key in s.store.book && !s.store.book[key].stop
    ensures var at := s.memory.at;
            var r := s.store.book[(at.leg, at.chunk)];
            Step(s, ReuseReceipt) ==
              State(s.store, Paging(Cursor(at.phase, at.chunk + 1, at.leg, r.token, r.kept), s.memory.stats,
                s.memory.saved))
  {
  }

  /** A pause saves the place and the statistics, in phase 1 before a page and later at the phase; a
      crash loses what is in memory. */
  lemma PausesSave(s: State)
    ensures Step(s, Crash) == State(s.store, Down)
    ensures s.memory.Paging? && s.memory.at.kept < 50 && s.memory.at.chunk < 5 ==>
      Step(s, Pause) == State(Durable(s.memory.at, s.memory.stats, s.store.book), Down)
    ensures s.memory.Later? ==>
      Step(s, LaterPark) == State(Durable(Cursor(s.memory.phase, 0, GNews, "", 0), s.memory.stats, s.store.book), Down)
  {
  }

  /** A fault of phase 2 is counted and remembered as one of that phase. */
  lemma LaterFaultCounts(s: State, stats: Stats, phase: nat)
    requires s.memory == Later(stats, phase)
    ensures Step(s, LaterFault) ==
      if phase != 2 then s
      else State(s.store, Later(Stats(stats.counts, stats.failures + 1,
        if stats.retry.Some? then stats.retry else Some(Cursor(2, 0, GNews, "", 0))), 2))
  {
  }

  /** Phases 2, 3, 4 and 6 follow each other, each saved with the statistics when it begins. */
  lemma PhasesFollow(s: State, stats: Stats, phase: nat)
    requires s.memory == Later(stats, phase) && phase in {2, 3, 4, 6}
    ensures var next := if phase == 2 then 3 else if phase == 3 then 4 else 6;
            Step(s, NextPhase) ==
              if phase == 6 then s
              else State(Durable(Cursor(next, 0, GNews, "", 0), stats, s.store.book), Later(stats, next))
  {
  }

  /** A cycle that ends incomplete, or after a fault, goes back to the first fault it remembers,
      else to classification, or to the index if only that is missing; otherwise it stays where it
      is. */
  lemma FinishGoesBack(s: State, stats: Stats, incomplete: bool, indexOnly: bool)
    requires s.memory == Later(stats, 6)
    ensures var t := Step(s, Finish(incomplete, indexOnly));
            && t.memory.Down? && t.store.stats == stats && t.store.book == s.store.book
            && t.store.cursor ==
                 if !incomplete && stats.failures == 0 then s.store.cursor
                 else if stats.retry.Some? then stats.retry.value
                 else Cursor(if indexOnly then 6 else 3, 0, GNews, "", 0)
  {
  }

  /** A new cycle has counted and failed nothing. */
  lemma FreshIs()
    ensures Fresh == State(Durable(Cursor(1, 0, GNews, "", 0), Stats(multiset{}, 0, None), map[]), Down)
  {
  }

  // ------------------------------------------------------ what a fault leaves

  /** The next request is for page `c`. */
  predicate Asks(s: State, c: Cursor) {
    s.memory.Paging? && s.memory.at == c && MorePages(c) && Key(c) !in s.store.book
  }

  /** Some continuation asks for page `c`. */
  ghost predicate AskedAgain(s: State, c: Cursor) {
    exists after: seq<Event> :: Asks(Run(s, after), c)
  }

  /** A resume from the cursor starts after page `c`. */
  predicate Past(cursor: Cursor, c: Cursor) {
    cursor.phase >= 2 || (c.leg == GNews && cursor.leg == NewsData)
  }

  predicate RetryPast(retry: Option<Cursor>, c: Cursor) { retry.Some? ==> Past(retry.value, c) }

  /** What the store must hold for page `c` to be asked for again: a cursor that has not passed
      it, or a later phase that still remembers a place that has not. */
  predicate Leads(d: Durable, c: Cursor) {
    !Past(d.cursor, c) || (d.cursor.phase >= 3 && !RetryPast(d.stats.retry, c))
  }

  /** Nothing in the state leads back to page `c`. */
  ghost predicate Lost(s: State, c: Cursor) {
    && !Leads(s.store, c)
    && match s.memory
       case Down => true
       case Later(stats, phase) => phase >= 2 && RetryPast(stats.retry, c)
       case Paging(at, stats, _) => at.phase == 1 && Past(at, c) && RetryPast(stats.retry, c)
       case Applied(at, stats, _, _) => at.phase == 1 && Past(at, c) && RetryPast(stats.retry, c)
       case Committed(at, stats, _, _) => at.phase == 1 && Past(at, c) && RetryPast(stats.retry, c)
  }

  lemma LostStep(s: State, c: Cursor, e: Event)
    requires Lost(s, c)
    ensures Lost(Step(s, e), c)
  {
    match s.memory
    case Down =>
    case Later(_, _) =>
    case Paging(_, _, _) =>
    case Applied(_, _, _, _) =>
    case Committed(_, _, _, _) =>
  }

  lemma {:induction false} LostStays(s: State, c: Cursor, events: seq<Event>)
    requires Lost(s, c)
    ensures Lost(Run(s, events), c)
    decreases |events|
  {
    if events != [] {
      LostStep(s, c, events[0]);
      LostStays(Step(s, events[0]), c, events[1..]);
    }
  }

  lemma RunCons(s: State, e: Event, rest: seq<Event>)
    ensures Run(s, [e] + rest) == Run(Step(s, e), rest)
  {
    assert ([e] + rest)[1..] == rest;
  }

  /** A page that every earlier page of its provider leads up to, and that has no receipt. */
  ghost predicate Unread(b: Book, c: Cursor) {
    c.phase == 1 && Point(b, c) && MorePages(c) && Key(c) !in b
  }

  /** Receipts lead from any earlier place of the same provider to the page. */
  lemma {:induction false} WalkTo(s: State, c: Cursor) returns (events: seq<Event>)
    requires Inv(s) && s.memory.Paging? && s.memory.at.leg == c.leg && Unread(s.store.book, c)
    ensures Asks(Run(s, events), c)
    decreases c.chunk - s.memory.at.chunk
  {
    var Paging(at, stats, saved) := s.memory;
    var b := s.store.book;
    assert at.chunk <= c.chunk;
    if at.chunk == c.chunk {
      events := [];
    } else {
      assert Key(at) in b && !b[Key(at)].stop;
      assert ReceiptOk(b, at.leg, at.chunk);
      StepKeeps(s, ReuseReceipt);
      MoreBefore(b, at, c);
      var rest := WalkTo(Step(s, ReuseReceipt), c);
      RunCons(s, ReuseReceipt, rest);
      events := [ReuseReceipt] + rest;
    }
  }

  lemma MoreBefore(b: Book, at: Cursor, c: Cursor)
    requires BookOk(b) && Point(b, at) && Point(b, c) && at.leg == c.leg && at.chunk < c.chunk
    ensures MorePages(at)
  {
    assert ReceiptOk(b, c.leg, at.chunk);
    if at.chunk > 0 { assert ReceiptOk(b, c.leg, at.chunk - 1); }
  }

  /** Leaving the first provider starts the second one. */
  lemma SecondStarts(d: Durable, stats: Stats, saved: Cursor)
    requires saved.leg == GNews
    ensures var t := NextProvider(d, GNews, stats, saved);
            t.memory.Paging? && t.memory.at.leg == NewsData && t.store.book == d.book
  {
  }

  /** The first provider can always be left. */
  lemma {:induction false} LeaveFirst(s: State) returns (events: seq<Event>)
    requires Inv(s) && s.memory.Paging? && s.memory.at.leg == GNews && s.memory.saved.leg == GNews
    ensures var t := Run(s, events);
            t.memory.Paging? && t.memory.at.leg == NewsData && t.store.book == s.store.book
    decreases MAX_PAGES - s.memory.at.chunk
  {
    var Paging(at, stats, saved) := s.memory;
    var b := s.store.book;
    var e := if !MorePages(at) then LeaveProvider else if Key(at) in b then ReuseReceipt else QuotaSpent;
    SecondStarts(s.store, stats, saved);
    var rest := [];
    if MorePages(at) && Key(at) in b && !b[Key(at)].stop {
      assert ReceiptOk(b, at.leg, at.chunk);
      StepKeeps(s, e);
      rest := LeaveFirst(Step(s, e));
    }
    RunCons(s, e, rest);
    events := [e] + rest;
  }

  /** A later phase runs to the end of the cycle with what it remembers. */
  lemma {:induction false} ToEnd(s: State) returns (events: seq<Event>)
    requires s.memory.Later? && s.memory.phase >= 2
    ensures var t := Run(s, events);
            t.memory.Later? && t.memory.phase >= LAST_PHASE && t.memory.stats == s.memory.stats
              && t.store.book == s.store.book
    decreases LAST_PHASE - s.memory.phase
  {
    if s.memory.phase >= LAST_PHASE {
      events := [];
    } else {
      var rest := ToEnd(Step(s, NextPhase));
      RunCons(s, NextPhase, rest);
      events := [NextPhase] + rest;
    }
  }

  lemma FromCursor(s: State, c: Cursor) returns (events: seq<Event>)
    requires Inv(s) && s.memory.Down? && Unread(s.store.book, c) && !Past(s.store.cursor, c)
    ensures Asks(Run(s, events), c)
  {
    var t := Step(s, Resume);
    StepKeeps(s, Resume);
    var first, rest := [], [];
    if t.memory.at.leg == c.leg {
      rest := WalkTo(t, c);
    } else {
      first := LeaveFirst(t);
      RunKeeps(t, first);
      rest := WalkTo(Run(t, first), c);
    }
    RunSplit(t, first, rest);
    RunCons(s, Resume, first + rest);
    events := [Resume] + (first + rest);
  }

  lemma FromLater(s: State, c: Cursor) returns (events: seq<Event>)
    requires Inv(s) && s.memory.Down? && Unread(s.store.book, c)
    requires s.store.cursor.phase >= 3 && !RetryPast(s.store.stats.retry, c)
    ensures Asks(Run(s, events), c)
  {
    var t := Step(s, Resume);
    var first := ToEnd(t);
    var u := Run(t, first);
    var done := Step(u, Finish(true, false));
    StepKeeps(s, Resume);
    RunKeeps(t, first);
    StepKeeps(u, Finish(true, false));
    var rest := FromCursor(done, c);
    RunCons(u, Finish(true, false), rest);
    RunSplit(t, first, [Finish(true, false)] + rest);
    RunCons(s, Resume, first + ([Finish(true, false)] + rest));
    events := [Resume] + (first + ([Finish(true, false)] + rest));
  }

  /** Wherever a cycle is down, an unread page is asked for by some continuation if and only
      if the saved cursor has not passed it, or stands in phase 3 or later while the saved
      statistics remember a place that has not. */
  lemma AskedAgainExactlyWhen(before: seq<Event>, c: Cursor)
    requires Run(Fresh, before).memory.Down? && Unread(Run(Fresh, before).store.book, c)
    ensures AskedAgain(Run(Fresh, before), c) <==> Leads(Run(Fresh, before).store, c)
  {
    var t := Run(Fresh, before);
    ReachedOk(before);
    if Leads(t.store, c) {
      var after: seq<Event>;
      if !Past(t.store.cursor, c) { after := FromCursor(t, c); } else { after := FromLater(t, c); }
      assert AskedAgain(t, c);
    } else {
      forall after: seq<Event> ensures !Asks(Run(t, after), c) {
        LostStays(t, c, after);
      }
    }
  }

  lemma UnreadStays(s: State, events: seq<Event>, c: Cursor)
    requires Inv(s) && Point(s.store.book, c)
    ensures Point(Run(s, events).store.book, c)
  {
    var b, b' := s.store.book, Run(s, events).store.book;
    forall q: nat | q < c.chunk ensures (c.leg, q) in b' && b'[(c.leg, q)] == b[(c.leg, q)] {
      assert (c.leg, q) in b;
      BookGrows(s, events, (c.leg, q));
    }
    HitsSame(b, b', c.leg, c.chunk);
  }

  /** What becomes of a fault at page `c`: after any interruption, however late, it is retried
      by some continuation if and only if the store still leads to `c`. */
  lemma FaultIsRetriedExactlyWhen(before: seq<Event>, c: Cursor, quotaFault: bool, until: seq<Event>)
    requires Asks(Run(Fresh, before), c)
    requires var t := Run(Step(Run(Fresh, before), Fault(quotaFault)), until); t.memory.Down? && Key(c) !in t.store.book
    ensures var t := Run(Step(Run(Fresh, before), Fault(quotaFault)), until);
            AskedAgain(t, c) <==> Leads(t.store, c)
  {
    var s := Run(Fresh, before);
    ReachedOk(before);
    var rest := [Fault(quotaFault)] + until;
    RunCons(s, Fault(quotaFault), until);
    RunSplit(Fresh, before, rest);
    UnreadStays(s, rest, c);
    AskedAgainExactlyWhen(before + rest, c);
  }

  predicate Uninterrupted(e: Event) {
    !e.Crash? && !e.Pause? && !e.LaterPark?
  }

  predicate Remembers(m: Memory, c: Cursor) {
    !m.Down? && m.stats.failures > 0 && m.stats.retry == Some(c)
  }

  lemma {:induction false} RetryStands(s: State, events: seq<Event>, c: Cursor)
    requires Remembers(s.memory, c)
    requires forall e :: e in events ==> Uninterrupted(e) && !e.Finish?
    ensures Remembers(Run(s, events).memory, c)
    decreases |events|
  {
    if events != [] {
      assert events[0] in events;
      RetryStands(Step(s, events[0]), events[1..], c);
    }
  }

  /** Without an interruption the first real fault is where the next resume starts, whatever
      else happens until the cycle ends. */
  lemma FirstFaultIsRetried(s: State, events: seq<Event>, incomplete: bool, indexOnly: bool)
    requires s.memory.Paging? && MorePages(s.memory.at) && Key(s.memory.at) !in s.store.book
    requires s.memory.stats.retry.None?
    requires forall e :: e in events ==> Uninterrupted(e) && !e.Finish?
    requires var t := Run(Step(s, Fault(false)), events); t.memory.Later? && t.memory.phase >= LAST_PHASE
    ensures Step(Run(Step(s, Fault(false)), events), Finish(incomplete, indexOnly)).store.cursor == s.memory.at
  {
    RetryStands(Step(s, Fault(false)), events, s.memory.at);
  }

  /** Nothing in the state leads back to the first provider. */
  ghost predicate PastGNews(s: State) {
    && (s.store.cursor.phase <= 1 ==> s.store.cursor.leg == NewsData)
    && (s.store.stats.retry.Some? && s.store.stats.retry.value.phase <= 1 ==> s.store.stats.retry.value.leg == NewsData)
    && (!s.memory.Down? && s.memory.stats.retry.Some? && s.memory.stats.retry.value.phase <= 1 ==>
          s.memory.stats.retry.value.leg == NewsData)
    && (s.memory.Paging? || s.memory.Applied? || s.memory.Committed? ==> s.memory.at.leg == NewsData)
    && (s.memory.Later? ==> s.memory.phase >= 2)
  }

  lemma PastGNewsStep(s: State, e: Event, page: nat)
    requires PastGNews(s)
    ensures PastGNews(Step(s, e)) && ((GNews, page) in Step(s, e).store.book <==> (GNews, page) in s.store.book)
  {
    match s.memory
    case Down =>
    case Later(_, _) =>
    case Paging(_, _, _) =>
    case Applied(_, _, _, _) =>
    case Committed(_, _, _, _) =>
  }

  lemma {:induction false} PastGNewsStays(s: State, events: seq<Event>, page: nat)
    requires PastGNews(s)
    ensures (GNews, page) in Run(s, events).store.book <==> (GNews, page) in s.store.book
    decreases |events|
  {
    if events != [] {
      PastGNewsStep(s, events[0], page);
      PastGNewsStays(Step(s, events[0]), events[1..], page);
    }
  }

  /** A pause does not keep the promise of `FirstFaultIsRetried`: when the cycle is paused
      while the second provider is being paged and then resumed, the remembered fault is
      cleared, and no continuation of any kind reads a page of the first provider again. */
  lemma PauseForgetsFirstProvider(s: State, events: seq<Event>, page: nat)
    requires s.memory.Paging? && MorePages(s.memory.at) && s.memory.at.leg == NewsData && s.memory.at.phase == 1
    ensures var resumed := Run(s, [Pause, Resume]);
            && resumed.memory.Paging? && resumed.memory.stats.retry.None?
            && ((GNews, page) in Run(resumed, events).store.book <==> (GNews, page) in s.store.book)
  {
    assert Run(s, [Pause, Resume]) == Step(Step(s, Pause), Resume) by {
      assert [Pause, Resume][1..] == [Resume];
      assert [Resume][1..] == [];
    }
    PastGNewsStays(Step(Step(s, Pause), Resume), events, page);
  }

  /** A fault that is remembered and lost: the first page fails, the cycle is paused before the
      second provider's first page, and nothing ever asks for the failed page again. */
  lemma FaultForgotten(after: seq<Event>)
    ensures var t := Run(Fresh, [Resume, Fault(false), Pause]);
            && Asks(Run(Fresh, [Resume]), FirstCursor)
            && t.memory.Down? && t.store.stats.retry == Some(FirstCursor)
            && !Asks(Run(t, after), FirstCursor)
  {
    var one := Step(Fresh, Resume);
    RunAppend(Fresh, [], Resume);
    RunAppend(Fresh, [Resume], Fault(false));
    RunAppend(Fresh, [Resume, Fault(false)], Pause);
    assert [] + [Resume] == [Resume] && [Resume] + [Fault(false)] == [Resume, Fault(false)];
    assert [Resume, Fault(false)] + [Pause] == [Resume, Fault(false), Pause];
    LostStays(Step(Step(one, Fault(false)), Pause), FirstCursor, after);
  }

  /** A fault on the first page, no quota on the second provider, and a pause in phase 3. */
  function LatePark(): State {
    Step(Step(Step(Step(Step(Fresh, Resume), Fault(false)), QuotaSpent), NextPhase), LaterPark)
  }

  lemma LateParkRun()
    ensures LatePark() == Run(Fresh, [Resume, Fault(false), QuotaSpent, NextPhase, LaterPark])
  {
    var one := Step(Fresh, Resume);
    var two := Step(one, Fault(false));
    var three := Step(two, QuotaSpent);
    RunCons(Step(three, NextPhase), LaterPark, []);
    RunCons(three, NextPhase, [LaterPark]);
    RunCons(two, QuotaSpent, [NextPhase, LaterPark]);
    RunCons(one, Fault(false), [QuotaSpent, NextPhase, LaterPark]);
    RunCons(Fresh, Resume, [Fault(false), QuotaSpent, NextPhase, LaterPark]);
    assert [LaterPark] + [] == [LaterPark];
  }

  /** The same fault survives a pause in phase 3: the cycle can still come back to it. */
  lemma LateParkKeepsFault() returns (after: seq<Event>)
    ensures var t := Run(Fresh, [Resume, Fault(false), QuotaSpent, NextPhase, LaterPark]);
            t.memory.Down? && t.store.cursor.phase == 3 && Asks(Run(t, after), FirstCursor)
  {
    LateParkRun();
    ReachedOk([Resume, Fault(false), QuotaSpent, NextPhase, LaterPark]);
    var t := LatePark();
    assert t.store.cursor == PhaseStart(3) && t.store.stats.retry == Some(FirstCursor) && t.store.book == map[];
    after := FromLater(t, FirstCursor);
  }

  // -------------------------------------------------------------- the program

  /** What the world answers to one turn of the page loop. */
  datatype Reply =
    | Pausing
    | Spent
    | Failing(quotaFault: bool)
    | Readable(hits: seq<Country>, more: Option<string>, crashBeforeSave: bool, crashAfterSave: bool)

  lemma {:induction false} RunAppend(s: State, events: seq<Event>, e: Event)
    ensures Run(s, events + [e]) == Step(Run(s, events), e)
  {
    RunSplit(s, events, [e]);
    assert [e][1..] == [];
  }

  /** The store's rows for one run, and the page loop that works on them. */
  class Collector {
    var cursor: Cursor
    var stats: Stats
    var book: Book

    function Stored(): Durable
      reads this
    {
      Durable(cursor, stats, book)
    }

    constructor ()
      ensures Stored() == Fresh.store
    {
      cursor, stats, book := FirstCursor, Stats(multiset{}, 0, None), map[];
    }

    /** Leaving a provider: go on with the second one, or save the cursor of phase 2. */
    method LeaveFor(leg: Provider, mine: Stats, saved: Cursor) returns (next: Memory)
      modifies this
      ensures State(Stored(), next) == NextProvider(old(Stored()), leg, mine, saved)
    {
      if leg == GNews {
        next := Paging(if saved.leg == NewsData then saved.(phase := 1)
          else Cursor(1, 0, NewsData, "", 0), mine, saved);
      } else {
        cursor, stats := SecondPhase, mine;
        next := Later(mine, 2);
      }
    }

    /** A readable reply: count its hits, save receipt, cursor and statistics together,
        then the position of the next page. */
    method TakePage(here: Cursor, mine: Stats, saved: Cursor, reply: Reply) returns (next: Memory,
        ghost used: seq<Event>)
      requires here.phase == 1 && MorePages(here) && Key(here) !in book && reply.Readable?
      modifies this
      ensures Run(State(old(Stored()), Paging(here, mine, saved)), used) == State(Stored(), next)
      ensures !next.Applied? && !next.Committed? && (next.Paging? ==> next.at.phase == 1)
    {
      ghost var start := State(Stored(), Paging(here, mine, saved));
      var room := TARGET - here.kept;
      var taken := if |reply.hits| <= room then reply.hits else reply.hits[..room];
      var kept := here.kept + |taken|;
      var counts := CountHits(mine.counts, taken);
      var counted := mine.(counts := counts);
      var token := if here.leg == NewsData && reply.more.Some? then reply.more.value else "";
      var stop := reply.more.None? || kept >= TARGET || here.chunk + 1 >= MAX_PAGES;
      var receipt := Receipt(kept, token, stop, multiset(taken));
      RunAppend(start, [], Page(reply.hits, reply.more));
      assert Run(start, []) == start;
      used := [] + [Page(reply.hits, reply.more)];
      assert Run(start, used) == State(Stored(), Applied(here, counted, saved, receipt));
      ghost var rest;
      next, rest := SavePage(here, counted, saved, receipt, reply.crashBeforeSave, reply.crashAfterSave);
      RunSplit(start, used, rest);
      used := used + rest;
    }

    /** Saves an applied page and moves on, unless the process dies. */
    method SavePage(here: Cursor, counted: Stats, saved: Cursor, receipt: Receipt, crashBeforeSave: bool,
        crashAfterSave: bool) returns (next: Memory, ghost used: seq<Event>)
      requires here.phase == 1
      modifies this
      ensures Run(State(old(Stored()), Applied(here, counted, saved, receipt)), used) == State(Stored(), next)
      ensures !next.Applied? && !next.Committed? && (next.Paging? ==> next.at.phase == 1)
    {
      ghost var start := State(Stored(), Applied(here, counted, saved, receipt));
      used := [];
      if crashBeforeSave {
        RunAppend(start, used, Crash);
        return Down, used + [Crash];
      }
      cursor, stats, book := here, counted, book[(here.leg, here.chunk) := receipt];
      RunAppend(start, used, Commit);
      used := used + [Commit];
      assert Run(start, used) == State(Stored(), Committed(here, counted, saved, receipt));
      if crashAfterSave {
        RunAppend(start, used, Crash);
        return Down, used + [Crash];
      }
      RunAppend(start, used, Advance);
      used := used + [Advance];
      if receipt.stop {
        next := LeaveFor(here.leg, counted, saved);
      } else {
        cursor := Cursor(1, here.chunk + 1, here.leg, receipt.token, receipt.kept);
        next := Paging(cursor, counted, cursor);
      }
    }

    /** One turn of the page loop. */
    method Turn(here: Cursor, mine: Stats, saved: Cursor, reply: Reply) returns (next: Memory, ghost used: seq<Event>)
      requires here.phase == 1
      modifies this
      ensures Run(State(old(Stored()), Paging(here, mine, saved)), used) == State(Stored(), next)
      ensures !next.Applied? && !next.Committed? && (next.Paging? ==> next.at.phase == 1)
    {
      ghost var start := State(Stored(), Paging(here, mine, saved));
      ghost var e;
      if !(here.kept < TARGET && here.chunk < MAX_PAGES) {
        e := LeaveProvider;
        next := LeaveFor(here.leg, mine, saved);
      } else if reply.Pausing? {
        cursor, stats := here, mine;
        e, next := Pause, Down;
      } else if (here.leg, here.chunk) in book {
        e := ReuseReceipt;
        var receipt := book[(here.leg, here.chunk)];
        if receipt.stop {
          next := LeaveFor(here.leg, mine, saved);
        } else {
          next := Paging(Cursor(1, here.chunk + 1, here.leg, receipt.token, receipt.kept), mine, saved);
        }
      } else if reply.Spent? {
        e := QuotaSpent;
        next := LeaveFor(here.leg, mine, saved);
      } else if reply.Failing? {
        e := Fault(reply.quotaFault);
        var marked := mine;
        if !reply.quotaFault {
          marked := mine.(failures := mine.failures + 1, retry := if mine.retry.None? then Some(here) else mine.retry);
        }
        next := LeaveFor(here.leg, marked, saved);
      } else {
        next, used := TakePage(here, mine, saved, reply);
        return;
      }
      used := [e];
      RunAppend(start, [], e);
      assert [] + [e] == [e];
    }

    /** One invocation of phase 1 on a run whose cursor is still in it.  The process may be
        killed between any two transactions, or when the replies run out.  Whatever
        happens, the rows it leaves are those of a run of the step machine, which is
        stopped or past phase 1. */
    method CollectHeadlines(replies: seq<Reply>) returns (past: bool, ghost trace: seq<Event>)
      requires cursor.phase <= 1
      modifies this
      ensures Run(State(old(Stored()), Down), trace).store == Stored()
      ensures past ==> Run(State(old(Stored()), Down), trace).memory.Later?
      ensures !past ==> Run(State(old(Stored()), Down), trace).memory.Down?
    {
      ghost var start := State(Stored(), Down);
      stats := stats.(failures := 0, retry := None);
      var memory := Paging(cursor.(phase := 1), stats, cursor);
      trace := [Resume];
      RunAppend(start, [], Resume);
      assert [] + trace == trace;
      for turn := 0 to |replies|
        invariant Run(start, trace) == State(Stored(), memory)
        invariant memory.Paging? ==> memory.at.phase == 1
        invariant memory.Paging? || memory.Down? || memory.Later?
      {
        if !memory.Paging? { break; }
        ghost var used;
        memory, used := Turn(memory.at, memory.stats, memory.saved, replies[turn]);
        RunSplit(start, trace, used);
        trace := trace + used;
      }
      past := memory.Later?;
      if memory.Paging? {
        RunAppend(start, trace, Crash);
        trace := trace + [Crash];
      }
    }

    /** The per-country tally of one page. */
    static method CountHits(before: multiset<Country>, hits: seq<Country>) returns (counts: multiset<Country>)
      ensures counts == before + multiset(hits)
    {
      counts := before;
      for i := 0 to |hits|
        invariant counts == before + multiset(hits[..i])
      {
        counts := counts + multiset{hits[i]};
        assert hits[..i + 1] == hits[..i] + [hits[i]];
      }
      assert hits[..|hits|] == hits;
    }
  }
}
