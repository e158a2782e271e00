/** Phase 2 of an Atlas cycle: one job per country and provider, walked in order under a
    lexicographic cursor, with a receipt per finished job. */
module Coverage {
  import opened Wrappers

  datatype Job = Job(phase: nat, chunk: nat, leg: string, country: nat)

  datatype Cursor = Cursor(phase: nat, chunk: nat, leg: string, country: nat)

  function LegOrder(leg: string): nat {
    if leg == "gnews" || leg == "newsapi" then 0 else 1
  }

  predicate Less(a: nat, x: nat, b: nat, y: nat) {
    a < b || (a == b && x < y)
  }

  predicate JobIsBefore(job: Job, cursor: Cursor) {
    if job.phase < cursor.phase then true
    else if job.phase > cursor.phase then false
    else if job.phase == 1 then Less(job.chunk, LegOrder(job.leg), cursor.chunk, LegOrder(cursor.leg))
    else Less(job.country, LegOrder(job.leg), cursor.country, LegOrder(cursor.leg))
  }

  function CursorAt(job: Job): Cursor {
    Cursor(job.phase, job.chunk, job.leg, job.country)
  }

  function NextAfter(job: Job, countries: nat): Job {
    if job.leg == "newsapi" then job.(leg := "currents")
    else if job.country + 1 < countries then job.(country := job.country + 1, leg := "newsapi")
    else job
  }

  /** Both providers of every country, country by country. */
  function Jobs(countries: nat): seq<Job> {
    if countries == 0 then []
    else Jobs(countries - 1) + [Job(2, 0, "newsapi", countries - 1), Job(2, 0, "currents", countries - 1)]
  }

  /** Where a cycle stands before phase 2, and where phase 2 starts. */
  const Discovering := Cursor(1, 0, "gnews", 0)
  const FirstCursor := Cursor(2, 0, "newsapi", 0)
  const ThirdPhase := Cursor(3, 0, "classify", 0)

  // ----------------------------------------------------------------- order

  lemma {:induction false} JobsAt(n: nat, k: nat)
    requires k < 2 * n
    ensures |Jobs(n)| == 2 * n
    ensures Jobs(n)[k] == Job(2, 0, if k % 2 == 0 then "newsapi" else "currents", k / 2)
  {
    if n > 1 { JobsAt(n - 1, if k < 2 * n - 2 then k else 0); }
  }

  lemma {:induction false} JobsCount(n: nat)
    ensures |Jobs(n)| == 2 * n
  {
    if n > 0 { JobsAt(n, 0); }
  }

  /** The cursor of job `k` lets a resume skip the jobs before `k` and no other. */
  lemma SkippedAreExactlyEarlier(n: nat, j: nat, k: nat)
    requires j < |Jobs(n)| && k < |Jobs(n)|
    ensures JobIsBefore(Jobs(n)[j], CursorAt(Jobs(n)[k])) <==> j < k
  {
    JobsCount(n);
    JobsAt(n, j);
    JobsAt(n, k);
  }

  /** The successor in the list, except that the last job is its own successor. */
  lemma NextIsSuccessor(n: nat, k: nat)
    requires k < |Jobs(n)|
    ensures NextAfter(Jobs(n)[k], n) == Jobs(n)[if k + 1 < |Jobs(n)| then k + 1 else k]
  {
    JobsCount(n);
    JobsAt(n, k);
    if k + 1 < 2 * n { JobsAt(n, k + 1); }
  }

  // ----------------------------------------------------------------- steps

  /** What does not change while phase 2 runs: the countries, and the feeds that a provider
      does not have. */
  datatype Plan = Plan(countries: seq<string>, unsupported: set<(string, string)>) {
    function All(): seq<Job> { Jobs(|countries|) }

    function Key(k: nat): (string, string)
      requires k < |All()|
    {
      JobsCount(|countries|);
      JobsAt(|countries|, k);
      (All()[k].leg, countries[All()[k].country])
    }
  }

  /** `commits` lists every receipt ever written, in order; `excused` holds the jobs whose
      last visit ended in a fault or found no open quota.  Both are history. */
  datatype Store = Store(
    cursor: Cursor,
    retry: Option<Cursor>,
    receipts: set<(string, string)>,
    commits: seq<(string, string)>,
    excused: set<nat>)

  /** `loaded` is the cursor the invocation started from; it is not advanced. */
  datatype Memory =
    | Down
    | At(k: nat, loaded: Cursor, retry: Option<Cursor>)
    | Applied(k: nat, loaded: Cursor, retry: Option<Cursor>)
    | Queueing(k: nat, loaded: Cursor, retry: Option<Cursor>)
    | Later(retry: Option<Cursor>)

  datatype State = State(store: Store, memory: Memory)

  datatype Event =
    | Resume(carried: Option<Cursor>)
    | Crash
    | Pause
    | PassOver
    | QuotaSpent
    | Fault(quotaFault: bool)
    | Hits
    | Commit
    | Save
    | Leave
    | Finish

  const Fresh := State(Store(Discovering, None, {}, [], {}), Down)

  /** What phase 1 of the same invocation remembers: a place in phase 1, or nothing. */
  function Carried(carried: Option<Cursor>): Option<Cursor> {
    if carried.Some? && carried.value.phase <= 1 then carried else None
  }

  function NextCursor(plan: Plan, k: nat): Cursor
    requires k < |plan.All()|
  {
    CursorAt(NextAfter(plan.All()[k], |plan.countries|))
  }

  function AtStep(plan: Plan, d: Store, k: nat, loaded: Cursor, retry: Option<Cursor>, e: Event): State {
    var m := At(k, loaded, retry);
    var next := At(k + 1, loaded, retry);
    if k >= |plan.All()| then
      if e.Leave? then State(d.(cursor := ThirdPhase, retry := retry), Later(retry)) else State(d, m)
    else
      var job := plan.All()[k];
      if JobIsBefore(job, loaded) then
        if e.PassOver? then State(d, next) else State(d, m)
      else if e.Pause? then
        State(d.(cursor := CursorAt(job), retry := retry), Down)
      else if plan.Key(k) in d.receipts || plan.Key(k) in plan.unsupported then
        if e.PassOver? then State(d, next) else State(d, m)
      else match e
        case QuotaSpent => State(d.(excused := d.excused + {k}), next)
        case Hits => State(d, Applied(k, loaded, retry))
        case Fault(quotaFault) =>
          var retry' := if quotaFault || retry.Some? then retry else Some(CursorAt(job));
          State(d.(cursor := NextCursor(plan, k), retry := retry', excused := d.excused + {k}),
                At(k + 1, loaded, retry'))
        case _ => State(d, m)
  }

  /** One event.  An event that cannot happen in the current state changes nothing. */
  function Step(plan: Plan, s: State, e: Event): State {
    var State(d, m) := s;
    if e.Crash? then State(d, Down)
    else match m
      case Down =>
        if !e.Resume? then s
        else if d.cursor.phase <= 1 then
          State(d.(cursor := FirstCursor, retry := Carried(e.carried)), At(0, FirstCursor, Carried(e.carried)))
        else if d.cursor.phase == 2 then State(d.(retry := None), At(0, d.cursor, None))
        else State(d, Later(d.retry))
      case At(k, loaded, retry) => AtStep(plan, d, k, loaded, retry, e)
      case Applied(k, loaded, retry) =>
        // Receipt, cursor and statistics are one transaction.
        if e.Commit? && k < |plan.All()| then
          State(Store(CursorAt(plan.All()[k]), retry, d.receipts + {plan.Key(k)},
                      d.commits + [plan.Key(k)], d.excused - {k}),
                Queueing(k, loaded, retry))
        else s
      case Queueing(k, loaded, retry) =>
        if k >= |plan.All()| then s
        else if e.Pause? then State(d.(cursor := NextCursor(plan, k), retry := retry), Down)
        else if e.Save? then State(d.(cursor := NextCursor(plan, k), retry := retry), At(k + 1, loaded, retry))
        else s
      case Later(retry) =>
        // A cycle that ends incomplete goes back to the first fault it remembers.
        if e.Finish? then
          State(d.(cursor := if retry.Some? then retry.value else ThirdPhase, retry := retry), Down)
        else if e.Pause? then State(d.(retry := retry), Down)
        else s
  }

  function Run(plan: Plan, s: State, events: seq<Event>): State
    decreases |events|
  {
    if events == [] then s else Run(plan, Step(plan, s, events[0]), events[1..])
  }

  // ------------------------------------------------------------- invariant

  /** The job is done, cannot be done, or could not be done when last tried. */
  predicate Handled(plan: Plan, d: Store, j: nat)
    requires j < |plan.All()|
  {
    plan.Key(j) in d.receipts || plan.Key(j) in plan.unsupported || j in d.excused
  }

  /** What a resume from `c` would skip is handled. */
  ghost predicate Safe(plan: Plan, d: Store, c: Cursor) {
    forall j: nat :: j < |plan.All()| && JobIsBefore(plan.All()[j], c) ==> Handled(plan, d, j)
  }

  ghost predicate RetryOk(plan: Plan, d: Store, retry: Option<Cursor>) {
    retry.Some? ==> Safe(plan, d, retry.value)
  }

  ghost predicate HandledBelow(plan: Plan, d: Store, k: nat) {
    forall j: nat :: j < k && j < |plan.All()| ==> Handled(plan, d, j)
  }

  predicate Distinct<T(==)>(s: seq<T>) {
    forall i, j :: 0 <= i < j < |s| ==> s[i] != s[j]
  }

  ghost predicate Inv(plan: Plan, s: State) {
    var State(d, m) := s;
    && Safe(plan, d, d.cursor)
    && RetryOk(plan, d, d.retry)
    && Distinct(d.commits) && (forall key :: key in d.commits <==> key in d.receipts)
    && match m
       case Down => true
       case Later(retry) => HandledBelow(plan, d, |plan.All()|) && RetryOk(plan, d, retry)
       case At(k, loaded, retry) => HandledBelow(plan, d, k) && Safe(plan, d, loaded) && RetryOk(plan, d, retry)
       case Applied(k, loaded, retry) =>
         && HandledBelow(plan, d, k) && Safe(plan, d, loaded) && RetryOk(plan, d, retry)
         && k < |plan.All()| && plan.Key(k) !in d.receipts
       case Queueing(k, loaded, retry) =>
         && HandledBelow(plan, d, k) && Safe(plan, d, loaded) && RetryOk(plan, d, retry)
         && k < |plan.All()| && plan.Key(k) in d.receipts
  }

  lemma SafeUpTo(plan: Plan, d: Store, k: nat)
    requires k < |plan.All()| && HandledBelow(plan, d, k)
    ensures Safe(plan, d, CursorAt(plan.All()[k]))
  {
    forall j: nat | j < |plan.All()| && JobIsBefore(plan.All()[j], CursorAt(plan.All()[k]))
      ensures Handled(plan, d, j)
    {
      SkippedAreExactlyEarlier(|plan.countries|, j, k);
    }
  }

  lemma NextIsSafe(plan: Plan, d: Store, k: nat)
    requires k < |plan.All()| && HandledBelow(plan, d, k + 1)
    ensures Safe(plan, d, NextCursor(plan, k))
  {
    NextIsSuccessor(|plan.countries|, k);
    SafeUpTo(plan, d, if k + 1 < |plan.All()| then k + 1 else k);
  }

  /** A cursor past phase 2 skips every job. */
  lemma PastMeansAll(plan: Plan, d: Store, c: Cursor)
    requires Safe(plan, d, c) && c.phase > 2
    ensures HandledBelow(plan, d, |plan.All()|)
  {
    forall j: nat | j < |plan.All()| ensures Handled(plan, d, j) {
      JobsCount(|plan.countries|);
      JobsAt(|plan.countries|, j);
      assert JobIsBefore(plan.All()[j], c);
    }
  }

  lemma HandledGrows(plan: Plan, d: Store, d': Store)
    requires forall j: nat :: j < |plan.All()| && Handled(plan, d, j) ==> Handled(plan, d', j)
    ensures forall c :: Safe(plan, d, c) ==> Safe(plan, d', c)
    ensures forall k :: HandledBelow(plan, d, k) ==> HandledBelow(plan, d', k)
  {
  }

  lemma AtKeeps(plan: Plan, s: State, e: Event)
    requires Inv(plan, s) && s.memory.At?
    ensures Inv(plan, Step(plan, s, e))
  {
    var d, d', k := s.store, Step(plan, s, e).store, s.memory.k;
    HandledGrows(plan, d, d');
    if k < |plan.All()| {
      SafeUpTo(plan, d, k);
      if Handled(plan, d', k) { NextIsSafe(plan, d', k); }
      SafeUpTo(plan, d', k);
    }
  }

  lemma StepKeeps(plan: Plan, s: State, e: Event)
    requires Inv(plan, s)
    ensures Inv(plan, Step(plan, s, e))
  {
    var State(d, m) := s;
    var d' := Step(plan, s, e).store;
    HandledGrows(plan, d, d');
    match m
    case Down =>
      FirstIsSafe(plan, d);
      if d.cursor.phase > 2 { PastMeansAll(plan, d, d.cursor); }
    case Later(_) =>
    case At(k, _, _) => AtKeeps(plan, s, e);
    case Applied(k, _, _) => SafeUpTo(plan, d, k); SafeUpTo(plan, d', k);
    case Queueing(k, _, _) => NextIsSafe(plan, d, k);
  }

  lemma {:induction false} RunKeeps(plan: Plan, s: State, events: seq<Event>)
    requires Inv(plan, s)
    ensures Inv(plan, Run(plan, s, events))
    decreases |events|
  {
    if events != [] {
      StepKeeps(plan, s, events[0]);
      RunKeeps(plan, Step(plan, s, events[0]), events[1..]);
    }
  }

  /** No job stands before the start of phase 2, or before phase 1. */
  lemma FirstIsSafe(plan: Plan, d: Store)
    ensures Safe(plan, d, FirstCursor)
    ensures forall c: Cursor :: c.phase <= 1 ==> Safe(plan, d, c)
  {
    forall j: nat | j < |plan.All()| ensures plan.All()[j].phase == 2 && !JobIsBefore(plan.All()[j], FirstCursor) {
      JobsCount(|plan.countries|);
      JobsAt(|plan.countries|, j);
    }
  }

  lemma ReachedOk(plan: Plan, events: seq<Event>)
    ensures Inv(plan, Run(plan, Fresh, events))
  {
    FirstIsSafe(plan, Fresh.store);
    RunKeeps(plan, Fresh, events);
  }

  // ---------------------------------------------------------- main results

  /** However often the cycle is paused, killed and resumed, no provider and country get
      a second receipt. */
  lemma ReceiptsAreWrittenOnce(plan: Plan, events: seq<Event>)
    ensures Distinct(Run(plan, Fresh, events).store.commits)
    ensures var c := Run(plan, Fresh, events).store.commits; forall i, j :: 0 <= i < j < |c| ==> c[i] != c[j]
  {
    ReachedOk(plan, events);
  }

  /** When the saved cursor has left phase 2, every job has its receipt, has no feed, or
      could not be done when it was last tried. */
  lemma NothingIsMissed(plan: Plan, events: seq<Event>, j: nat)
    requires j < |plan.All()|
    requires Run(plan, Fresh, events).store.cursor.phase > 2
    ensures Handled(plan, Run(plan, Fresh, events).store, j)
  {
    ReachedOk(plan, events);
    PastMeansAll(plan, Run(plan, Fresh, events).store, Run(plan, Fresh, events).store.cursor);
  }

  /** At every moment, a resume skips only handled jobs. */
  lemma ResumeSkipsOnlyHandled(plan: Plan, events: seq<Event>, j: nat)
    requires j < |plan.All()|
    requires JobIsBefore(plan.All()[j], Run(plan, Fresh, events).store.cursor)
    ensures Handled(plan, Run(plan, Fresh, events).store, j)
  {
    ReachedOk(plan, events);
  }

  // ------------------------------------------------------- what a job leaves behind

  /** The cursor of job `k` of `n`. */
  predicate IsAt(c: Cursor, k: nat) { c == Cursor(2, 0, if k % 2 == 0 then "newsapi" else "currents", k / 2) }

  lemma CursorIsAt(plan: Plan, k: nat)
    requires k < |plan.All()|
    ensures |plan.All()| == 2 * |plan.countries|
    ensures IsAt(CursorAt(plan.All()[k]), k)
    ensures IsAt(NextCursor(plan, k), if k + 1 < |plan.All()| then k + 1 else k)
    ensures plan.Key(k) == (if k % 2 == 0 then "newsapi" else "currents", plan.countries[k / 2])
  {
    JobsCount(|plan.countries|);
    JobsAt(|plan.countries|, k);
    NextIsSuccessor(|plan.countries|, k);
    JobsAt(|plan.countries|, if k + 1 < |plan.All()| then k + 1 else k);
  }

  /** A job that is asked for: hits are committed with its own place, and the next place is saved
      before the next job or a pause; a fault saves the next place at once, and without quota
      nothing is saved.  What failed or had no quota is excused until it is done. */
  lemma JobLeaves(plan: Plan, s: State, k: nat, quotaFault: bool)
    requires Asks(plan, s, k)
    ensures var d, m, next := s.store, s.memory, if k + 1 < |plan.All()| then k + 1 else k;
            var done := Step(plan, Step(plan, s, Hits), Commit);
            var saved, parked, failed := Step(plan, done, Save), Step(plan, done, Pause),
              Step(plan, s, Fault(quotaFault));
            && Step(plan, s, Hits).store == d && IsAt(done.store.cursor, k)
            && done.store.(cursor := d.cursor) ==
                 Store(d.cursor, m.retry, d.receipts + {plan.Key(k)}, d.commits + [plan.Key(k)], d.excused - {k})
            && IsAt(saved.store.cursor, next) && saved.store.(cursor := done.store.cursor) == done.store
            && saved.memory == At(k + 1, m.loaded, m.retry) && parked == State(saved.store, Down)
            && IsAt(failed.store.cursor, next) && failed.memory == At(k + 1, m.loaded, failed.store.retry)
            && failed.store.(cursor := d.cursor, retry := d.retry) == d.(excused := d.excused + {k})
            && Step(plan, s, QuotaSpent) == State(d.(excused := d.excused + {k}), At(k + 1, m.loaded, m.retry))
            && IsAt(Step(plan, s, Pause).store.cursor, k)
            && Step(plan, s, Pause) == State(d.(cursor := Step(plan, s, Pause).store.cursor, retry := m.retry), Down)
  {
    CursorIsAt(plan, k);
  }

  /** A job that the cursor skips, that is done or that has no feed is passed over. */
  lemma HandledJobIsPassedOver(plan: Plan, s: State)
    requires s.memory.At? && s.memory.k < |plan.All()| && !Asks(plan, s, s.memory.k)
    ensures Step(plan, s, PassOver) == State(s.store, At(s.memory.k + 1, s.memory.loaded, s.memory.retry))
  {
  }

  /** A resume starts phase 2 anew with what phase 1 remembers, or at the saved place with nothing
      remembered, or after phase 2 with what the store remembers; after the last job the statistics
      are saved with the third phase. */
  lemma PhaseTwoStartsAndEnds(plan: Plan, d: Store, carried: Option<Cursor>, s: State)
    requires s.memory.At? && s.memory.k >= |plan.All()|
    ensures var t := Step(plan, State(d, Down), Resume(carried));
            var told := if carried.Some? && carried.value.phase <= 1 then carried else None;
            && (d.cursor.phase <= 1 ==>
                  && t.memory == At(0, Cursor(2, 0, "newsapi", 0), told)
                  && t.store == d.(cursor := Cursor(2, 0, "newsapi", 0), retry := told))
            && (d.cursor.phase == 2 ==> t == State(d.(retry := None), At(0, d.cursor, None)))
            && (d.cursor.phase > 2 ==> t == State(d, Later(d.retry)))
    ensures var t := Step(plan, s, Leave);
            && t.store == s.store.(cursor := Cursor(3, 0, "classify", 0), retry := s.memory.retry)
            && t.memory == Later(s.memory.retry)
            && Step(plan, t, Pause) == State(t.store, Down)
            && Step(plan, t.(store := d), Pause).store.retry == s.memory.retry
            && Step(plan, t, Finish).store.cursor ==
                 if s.memory.retry.Some? then s.memory.retry.value else Cursor(3, 0, "classify", 0)
  {
  }

  // ------------------------------------------------- what a fault is worth at once

  predicate Uninterrupted(e: Event) { !e.Crash? && !e.Pause? && !e.Finish? }

  /** The invocation remembers the place, or nothing. */
  predicate Remembers(m: Memory, retry: Option<Cursor>) { !m.Down? && m.retry == retry }

  lemma {:induction false} RetryStands(plan: Plan, s: State, events: seq<Event>, c: Cursor)
    requires Remembers(s.memory, Some(c)) && forall e :: e in events ==> Uninterrupted(e)
    ensures Remembers(Run(plan, s, events).memory, Some(c))
    decreases |events|
  {
    if events != [] {
      assert events[0] in events;
      RetryStands(plan, Step(plan, s, events[0]), events[1..], c);
    }
  }

  lemma {:induction false} NothingStands(plan: Plan, s: State, events: seq<Event>)
    requires Remembers(s.memory, None) && forall e :: e in events ==> Uninterrupted(e) && e != Fault(false)
    ensures Remembers(Run(plan, s, events).memory, None)
    decreases |events|
  {
    if events != [] {
      assert events[0] in events;
      NothingStands(plan, Step(plan, s, events[0]), events[1..]);
    }
  }

  /** Without an interruption the cycle ends where the first real fault was, whatever faults come
      before, if they are of quota, and after. */
  lemma FirstFaultIsRetried(plan: Plan, s: State, before: seq<Event>, k: nat, after: seq<Event>)
    requires Remembers(s.memory, None)
    requires forall e :: e in before ==> Uninterrupted(e) && e != Fault(false)
    requires Asks(plan, Run(plan, s, before), k)
    requires forall e :: e in after ==> Uninterrupted(e)
    requires Run(plan, Step(plan, Run(plan, s, before), Fault(false)), after).memory.Later?
    ensures var t := Step(plan, Run(plan, Step(plan, Run(plan, s, before), Fault(false)), after), Finish);
            t.memory.Down? && t.store.cursor == Cursor(2, 0, if k % 2 == 0 then "newsapi" else "currents", k / 2)
            && t.store.retry == Some(t.store.cursor)
  {
    NothingStands(plan, s, before);
    JobsCount(|plan.countries|);
    JobsAt(|plan.countries|, k);
    RetryStands(plan, Step(plan, Run(plan, s, before), Fault(false)), after, CursorAt(plan.All()[k]));
  }

  /** Without a real fault it ends in phase 3. */
  lemma QuotaFaultsAreNotRetried(plan: Plan, s: State, events: seq<Event>)
    requires Remembers(s.memory, None) && Run(plan, s, events).memory.Later?
    requires forall e :: e in events ==> Uninterrupted(e) && e != Fault(false)
    ensures var t := Step(plan, Run(plan, s, events), Finish);
            t.memory.Down? && t.store.cursor.phase == 3 && t.store.retry == None
  {
    NothingStands(plan, s, events);
  }

  // ------------------------------------------------------ what a fault leaves

  /** The next request is for job `k`. */
  predicate Asks(plan: Plan, s: State, k: nat) {
    && s.memory.At? && s.memory.k == k && k < |plan.All()|
    && !JobIsBefore(plan.All()[k], s.memory.loaded)
    && plan.Key(k) !in s.store.receipts && plan.Key(k) !in plan.unsupported
  }

  /** Some continuation asks for job `k`. */
  ghost predicate AskedAgain(plan: Plan, s: State, k: nat) {
    exists after: seq<Event> :: Asks(plan, Run(plan, s, after), k)
  }

  predicate RetryPast(retry: Option<Cursor>, job: Job) { retry.Some? ==> JobIsBefore(job, retry.value) }

  /** What the store must hold for a job to be asked for again: a cursor that does not skip it,
      or a later phase that still remembers a place that does not. */
  predicate Leads(d: Store, job: Job) {
    !JobIsBefore(job, d.cursor) || (d.cursor.phase >= 3 && !RetryPast(d.retry, job))
  }

  /** What skips a job skips those before it. */
  lemma SkipsEarlier(n: nat, j: nat, k: nat, c: Cursor)
    requires j <= k < |Jobs(n)| && JobIsBefore(Jobs(n)[k], c)
    ensures JobIsBefore(Jobs(n)[j], c)
  {
    JobsCount(n);
    JobsAt(n, j);
    JobsAt(n, k);
  }

  /** Nothing in the state leads back to job `k`. */
  ghost predicate Lost(plan: Plan, s: State, k: nat)
    requires k < |plan.All()|
  {
    && !Leads(s.store, plan.All()[k])
    && match s.memory
       case Down => true
       case Later(retry) => RetryPast(retry, plan.All()[k])
       case At(j, loaded, retry) => RetryPast(retry, plan.All()[k]) && (k < j || JobIsBefore(plan.All()[k], loaded))
       case Applied(j, _, retry) => RetryPast(retry, plan.All()[k]) && k < j
       case Queueing(j, _, retry) => RetryPast(retry, plan.All()[k]) && k < j
  }

  lemma LostStep(plan: Plan, s: State, k: nat, e: Event)
    requires k < |plan.All()| && Lost(plan, s, k)
    ensures Lost(plan, Step(plan, s, e), k)
  {
    JobsCount(|plan.countries|);
    JobsAt(|plan.countries|, k);
    assert plan.All()[k].phase == 2;
    match s.memory
    case Down =>
    case Later(_) =>
    case At(j, loaded, retry) => if j < |plan.All()| { LostAt(plan, s, k, e); }
    case Applied(j, _, _) => if j < |plan.All()| { LaterSkips(plan, k, j); }
    case Queueing(j, _, _) => if j < |plan.All()| { LaterSkips(plan, k, j); }
  }

  /** The cursors saved at and after job `j` skip every earlier job. */
  lemma LaterSkips(plan: Plan, k: nat, j: nat)
    requires k < j < |plan.All()|
    ensures JobIsBefore(plan.All()[k], CursorAt(plan.All()[j])) && JobIsBefore(plan.All()[k], NextCursor(plan, j))
  {
    var n := |plan.countries|;
    NextIsSuccessor(n, j);
    SkippedAreExactlyEarlier(n, k, j);
    SkippedAreExactlyEarlier(n, k, if j + 1 < |plan.All()| then j + 1 else j);
  }

  lemma LostAt(plan: Plan, s: State, k: nat, e: Event)
    requires k < |plan.All()| && Lost(plan, s, k) && s.memory.At? && s.memory.k < |plan.All()|
    ensures Lost(plan, Step(plan, s, e), k)
  {
    var At(j, loaded, retry) := s.memory;
    if !JobIsBefore(plan.All()[j], loaded) {
      if j <= k && JobIsBefore(plan.All()[k], loaded) { SkipsEarlier(|plan.countries|, j, k, loaded); }
      LaterSkips(plan, k, j);
    }
  }

  lemma {:induction false} LostStays(plan: Plan, s: State, k: nat, events: seq<Event>)
    requires k < |plan.All()| && Lost(plan, s, k)
    ensures Lost(plan, Run(plan, s, events), k)
    decreases |events|
  {
    if events != [] {
      LostStep(plan, s, k, events[0]);
      LostStays(plan, Step(plan, s, events[0]), k, events[1..]);
    }
  }

  lemma RunCons(plan: Plan, s: State, e: Event, rest: seq<Event>)
    ensures Run(plan, s, [e] + rest) == Run(plan, Step(plan, s, e), rest)
  {
    assert ([e] + rest)[1..] == rest;
  }

  /** The job is neither done nor without a feed. */
  predicate Undone(plan: Plan, d: Store, k: nat) {
    k < |plan.All()| && plan.Key(k) !in d.receipts && plan.Key(k) !in plan.unsupported
  }

  /** Every job that is not skipped can be reached. */
  lemma {:induction false} WalkTo(plan: Plan, s: State, k: nat) returns (events: seq<Event>)
    requires Undone(plan, s.store, k) && s.memory.At? && s.memory.k <= k && !JobIsBefore(plan.All()[k], s.memory.loaded)
    ensures Asks(plan, Run(plan, s, events), k)
    decreases k - s.memory.k
  {
    var At(j, loaded, retry) := s.memory;
    if j == k {
      events := [];
    } else {
      var over := JobIsBefore(plan.All()[j], loaded) || plan.Key(j) in s.store.receipts
        || plan.Key(j) in plan.unsupported;
      var e := if over then PassOver else QuotaSpent;
      var rest := WalkTo(plan, Step(plan, s, e), k);
      RunCons(plan, s, e, rest);
      events := [e] + rest;
    }
  }

  lemma FromCursor(plan: Plan, s: State, k: nat) returns (events: seq<Event>)
    requires s.memory.Down? && Undone(plan, s.store, k) && !JobIsBefore(plan.All()[k], s.store.cursor)
    ensures Asks(plan, Run(plan, s, events), k)
  {
    var t := Step(plan, s, Resume(None));
    FirstIsSafe(plan, s.store);
    JobsCount(|plan.countries|);
    JobsAt(|plan.countries|, k);
    var rest := WalkTo(plan, t, k);
    RunCons(plan, s, Resume(None), rest);
    events := [Resume(None)] + rest;
  }

  lemma FromLater(plan: Plan, s: State, k: nat) returns (events: seq<Event>)
    requires s.memory.Down? && Undone(plan, s.store, k) && s.store.cursor.phase >= 3
             && !RetryPast(s.store.retry, plan.All()[k])
    ensures Asks(plan, Run(plan, s, events), k)
  {
    var t := Step(plan, s, Resume(None));
    var rest := FromCursor(plan, Step(plan, t, Finish), k);
    RunCons(plan, t, Finish, rest);
    RunCons(plan, s, Resume(None), [Finish] + rest);
    events := [Resume(None)] + ([Finish] + rest);
  }

  /** Wherever a cycle is down, an undone job is asked for by some continuation if and only if
      the saved cursor does not skip it, or stands in phase 3 or later while the store
      remembers a place that does not. */
  lemma AskedAgainExactlyWhen(plan: Plan, s: State, k: nat)
    requires s.memory.Down? && Undone(plan, s.store, k)
    ensures AskedAgain(plan, s, k) <==> Leads(s.store, plan.All()[k])
  {
    if Leads(s.store, plan.All()[k]) {
      var after: seq<Event>;
      if !JobIsBefore(plan.All()[k], s.store.cursor) {
        after := FromCursor(plan, s, k);
      } else {
        after := FromLater(plan, s, k);
      }
      assert AskedAgain(plan, s, k);
    } else {
      forall after: seq<Event> ensures !Asks(plan, Run(plan, s, after), k) {
        LostStays(plan, s, k, after);
      }
    }
  }

  /** What becomes of a fault at job `k`: after any interruption, however late, it is retried by
      some continuation if and only if the store still leads to it. */
  lemma FaultIsRetriedExactlyWhen(plan: Plan, s: State, k: nat, quotaFault: bool, until: seq<Event>)
    requires Asks(plan, s, k)
    requires var t := Run(plan, Step(plan, s, Fault(quotaFault)), until);
             t.memory.Down? && plan.Key(k) !in t.store.receipts
    ensures var t := Run(plan, Step(plan, s, Fault(quotaFault)), until);
            AskedAgain(plan, t, k) <==> Leads(t.store, plan.All()[k])
  {
    AskedAgainExactlyWhen(plan, Run(plan, Step(plan, s, Fault(quotaFault)), until), k);
  }

  /** A process that dies right after a fault comes back to the failed job exactly when it is
      the last one, which is its own successor. */
  lemma KilledFaultIsRetriedExactlyWhen(plan: Plan, s: State, k: nat, quotaFault: bool)
    requires Asks(plan, s, k)
    ensures AskedAgain(plan, Step(plan, Step(plan, s, Fault(quotaFault)), Crash), k) <==> k + 1 == |plan.All()|
  {
    var t := Step(plan, Step(plan, s, Fault(quotaFault)), Crash);
    NextIsSuccessor(|plan.countries|, k);
    var next := if k + 1 < |plan.All()| then k + 1 else k;
    SkippedAreExactlyEarlier(|plan.countries|, k, next);
    JobsCount(|plan.countries|);
    JobsAt(|plan.countries|, next);
    AskedAgainExactlyWhen(plan, t, k);
  }

  const OneCountry := Plan(["us"], {})

  /** The first job fails, and the cycle is paused before the second. */
  function Forgetting(): State {
    Step(OneCountry, Step(OneCountry, Step(OneCountry, Fresh, Resume(None)), Fault(false)), Pause)
  }

  /** A fault that is remembered and lost: nothing asks for the job again. */
  lemma FaultForgotten(after: seq<Event>)
    ensures Forgetting() == Run(OneCountry, Fresh, [Resume(None), Fault(false), Pause])
    ensures |OneCountry.All()| == 2 && Forgetting().store.retry == Some(CursorAt(OneCountry.All()[0]))
    ensures !Asks(OneCountry, Run(OneCountry, Forgetting(), after), 0)
  {
    var one := Step(OneCountry, Fresh, Resume(None));
    RunCons(OneCountry, Step(OneCountry, one, Fault(false)), Pause, []);
    RunCons(OneCountry, one, Fault(false), [Pause]);
    RunCons(OneCountry, Fresh, Resume(None), [Fault(false), Pause]);
    assert [Pause] + [] == [Pause];
    JobsCount(1);
    JobsAt(1, 0);
    JobsAt(1, 1);
    LostStays(OneCountry, Forgetting(), 0, after);
  }

  /** The second job of `OneCountry` done, from a state that stands at it. */
  function SecondDone(s: State): State {
    Step(OneCountry, Step(OneCountry, Step(OneCountry, s, Hits), Commit), Save)
  }

  lemma SecondDoneRun(s: State, rest: seq<Event>)
    ensures Run(OneCountry, s, [Hits] + ([Commit] + ([Save] + rest))) == Run(OneCountry, SecondDone(s), rest)
  {
    RunCons(OneCountry, s, Hits, [Commit] + ([Save] + rest));
    RunCons(OneCountry, Step(OneCountry, s, Hits), Commit, [Save] + rest);
    RunCons(OneCountry, Step(OneCountry, Step(OneCountry, s, Hits), Commit), Save, rest);
  }

  /** The cycle then ends without the job and without remembering it. */
  lemma CycleEndsWithoutIt() returns (events: seq<Event>)
    ensures var t := Run(OneCountry, Forgetting(), events);
            t.memory.Down? && t.store.cursor == ThirdPhase && t.store.retry == None && Undone(OneCountry, t.store, 0)
  {
    JobsCount(1);
    JobsAt(1, 0);
    JobsAt(1, 1);
    var one := Step(OneCountry, Forgetting(), Resume(None));
    var two := Step(OneCountry, one, PassOver);
    assert two.memory == At(1, CursorAt(OneCountry.All()[1]), None);
    var three := SecondDone(two);
    var four := Step(OneCountry, three, Leave);
    RunCons(OneCountry, four, Finish, []);
    RunCons(OneCountry, three, Leave, [Finish] + []);
    SecondDoneRun(two, [Leave] + ([Finish] + []));
    events := [Hits] + ([Commit] + ([Save] + ([Leave] + ([Finish] + []))));
    RunCons(OneCountry, one, PassOver, events);
    events := [PassOver] + events;
    RunCons(OneCountry, Forgetting(), Resume(None), events);
    events := [Resume(None)] + events;
  }

  /** The same fault survives a pause in phase 3: the cycle can still come back to it. */
  lemma LateParkKeepsFault() returns (before: seq<Event>, after: seq<Event>)
    ensures var t := Run(OneCountry, Fresh, before);
            t.memory.Down? && t.store.cursor.phase == 3 && Asks(OneCountry, Run(OneCountry, t, after), 0)
  {
    JobsCount(1);
    JobsAt(1, 0);
    JobsAt(1, 1);
    var one := Step(OneCountry, Fresh, Resume(None));
    var two := Step(OneCountry, one, Fault(false));
    assert two.memory == At(1, FirstCursor, Some(CursorAt(OneCountry.All()[0])));
    var three := SecondDone(two);
    var four := Step(OneCountry, three, Leave);
    RunCons(OneCountry, four, Pause, []);
    RunCons(OneCountry, three, Leave, [Pause] + []);
    SecondDoneRun(two, [Leave] + ([Pause] + []));
    before := [Hits] + ([Commit] + ([Save] + ([Leave] + ([Pause] + []))));
    RunCons(OneCountry, one, Fault(false), before);
    before := [Fault(false)] + before;
    RunCons(OneCountry, Fresh, Resume(None), before);
    before := [Resume(None)] + before;
    after := FromLater(OneCountry, Step(OneCountry, four, Pause), 0);
  }

  // ------------------------------------------------------------ the program

  /** What the world answers to one turn of the job loop. */
  datatype Reply =
    | Pausing
    | Spent
    | Failing(quotaFault: bool)
    | Readable(crashBeforeSave: bool, crashAfterSave: bool, pauseWhileQueueing: bool)

  lemma {:induction false} RunSplit(plan: Plan, s: State, first: seq<Event>, second: seq<Event>)
    ensures Run(plan, s, first + second) == Run(plan, Run(plan, s, first), second)
    decreases |first|
  {
    if first == [] {
      assert first + second == second;
    } else {
      assert (first + second)[1..] == first[1..] + second;
      RunSplit(plan, Step(plan, s, first[0]), first[1..], second);
    }
  }

  lemma RunAppend(plan: Plan, s: State, events: seq<Event>, e: Event)
    ensures Run(plan, s, events + [e]) == Step(plan, Run(plan, s, events), e)
  {
    RunSplit(plan, s, events, [e]);
    assert [e][1..] == [];
  }

  /** The rows of one run that phase 2 reads and writes. */
  class Coverer {
    var cursor: Cursor
    var retry: Option<Cursor>
    var receipts: set<(string, string)>
    ghost var commits: seq<(string, string)>
    ghost var excused: set<nat>

    ghost function Stored(): Store
      reads this
    {
      Store(cursor, retry, receipts, commits, excused)
    }

    constructor ()
      ensures Stored() == Fresh.store
    {
      cursor, retry, receipts, commits, excused := Discovering, None, {}, [], {};
    }

    /** A job whose headlines arrived: receipt and cursor together, then the inventory queue,
        where a pause parks at the following job. */
    method Finished(plan: Plan, k: nat, loaded: Cursor, fault: Option<Cursor>, reply: Reply)
      returns (going: bool, ghost used: seq<Event>)
      requires k < |plan.All()| && reply.Readable?
      modifies this
      ensures Run(plan, State(old(Stored()), Applied(k, loaded, fault)), used)
           == State(Stored(), if going then At(k + 1, loaded, fault) else Down)
    {
      ghost var start := State(Stored(), Applied(k, loaded, fault));
      used := [];
      if !reply.crashBeforeSave {
        RunAppend(plan, start, used, Commit);
        used := used + [Commit];
        cursor, retry := CursorAt(plan.All()[k]), fault;
        receipts, commits, excused := receipts + {plan.Key(k)}, commits + [plan.Key(k)], excused - {k};
      }
      ghost var e := if reply.crashBeforeSave || reply.crashAfterSave then Crash
                     else if reply.pauseWhileQueueing then Pause else Save;
      going := !reply.crashBeforeSave && !reply.crashAfterSave;
      if going {
        cursor := CursorAt(NextAfter(plan.All()[k], |plan.countries|));
        going := !reply.pauseWhileQueueing;
      }
      RunAppend(plan, start, used, e);
      used := used + [e];
    }

    /** One invocation of phase 2, with what phase 1 of it remembers.  The process may be killed
        between any two transactions, or when the replies run out; the rows it leaves are those of a
        run of the step machine. */
    method CoverCountries(plan: Plan, carried: Option<Cursor>, replies: seq<Reply>) returns (past: bool,
        ghost trace: seq<Event>)
      requires cursor.phase <= 2
      modifies this
      ensures Run(plan, State(old(Stored()), Down), trace)
           == State(Stored(), if past then Later(retry) else Down)
    {
      ghost var start := State(Stored(), Down);
      var fault: Option<Cursor> := None;
      if cursor.phase <= 1 { cursor, fault := FirstCursor, Carried(carried); }
      retry := fault;
      var loaded := cursor;
      var jobs := Jobs(|plan.countries|);
      trace := [Resume(carried)];
      RunAppend(plan, start, [], Resume(carried));
      assert [] + trace == trace;
      var turn, k: nat := 0, 0;
      while k < |jobs|
        invariant k <= |jobs| && turn <= |replies|
        invariant Run(plan, start, trace) == State(Stored(), At(k, loaded, fault))
      {
        ghost var e;
        if JobIsBefore(jobs[k], loaded) {
          e := PassOver;
        } else if turn == |replies| {
          RunAppend(plan, start, trace, Crash);
          return false, trace + [Crash];
        } else if replies[turn].Pausing? {
          cursor, retry := CursorAt(jobs[k]), fault;
          RunAppend(plan, start, trace, Pause);
          return false, trace + [Pause];
        } else if plan.Key(k) in receipts || plan.Key(k) in plan.unsupported {
          e := PassOver;
        } else {
          var reply := replies[turn];
          turn := turn + 1;
          match reply {
            case Spent =>
              e, excused := QuotaSpent, excused + {k};
            case Failing(quotaFault) =>
              if !quotaFault && fault.None? { fault := Some(CursorAt(jobs[k])); }
              cursor, retry := CursorAt(NextAfter(jobs[k], |plan.countries|)), fault;
              e, excused := Fault(quotaFault), excused + {k};
            case Readable(_, _, _) =>
              e := Hits;
          }
          if reply.Readable? {
            RunAppend(plan, start, trace, Hits);
            trace := trace + [Hits];
            var going;
            ghost var used;
            going, used := Finished(plan, k, loaded, fault, reply);
            RunSplit(plan, start, trace, used);
            trace := trace + used;
            if !going { return false, trace; }
            k := k + 1;
            continue;
          }
        }
        RunAppend(plan, start, trace, e);
        trace := trace + [e];
        k := k + 1;
      }
      cursor, retry := ThirdPhase, fault;
      RunAppend(plan, start, trace, Leave);
      return true, trace + [Leave];
    }
  }
}
