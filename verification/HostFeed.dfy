/** Start and stop of the host feed. */
module HostFeed {
  /* Any number of subscribers and producers share a receiver count and one atomic flag.

     Every atomic access is one event, so a run is any interleaving.  The flag is cleared by a
     release store, which does not order the load that follows it: `delayed` says whether that
     store may become visible to others only after the producer's next load. */

  /** What the surroundings may do. */
  datatype World = World(delayed: bool, readsFail: bool)

  datatype Subscriber = Joining | Holding | Gone

  /** A producer's place in its loop.  `visible` says whether its last clearing of the flag
      has reached the other threads. */
  datatype Producer =
    | Counting
    | Leaving
    | Rechecking(visible: bool)
    | Reclaiming(visible: bool)
    | Reading
    | Failing
    | Ended(visible: bool)

  datatype State = State(running: bool, subscribers: map<nat, Subscriber>, producers: map<nat, Producer>)

  datatype Event =
    | Subscribe(i: nat)
    | Claim(i: nat, p: nat)
    | Unsubscribe(i: nat)
    | Count(p: nat)
    | Release(p: nat)
    | Show(p: nat)
    | Recheck(p: nat)
    | Reclaim(p: nat)
    | ReadOk(p: nat)
    | ReadError(p: nat)
    | GiveUp(p: nat)

  const Idle := State(false, map[], map[])

  ghost predicate HasReceiver(s: State) {
    exists i :: i in s.subscribers && s.subscribers[i] != Gone
  }

  function Put(s: State, p: nat, at: Producer): State {
    s.(producers := s.producers[p := at])
  }

  /** A producer clears the flag: at once, or when its store becomes visible. */
  function Clear(w: World, s: State): State {
    if w.delayed then s else s.(running := false)
  }

  /** One atomic access.  An event that cannot happen in the current state changes nothing. */
  ghost function Step(w: World, s: State, e: Event): State {
    match e
    case Subscribe(i) =>
      if i in s.subscribers then s else s.(subscribers := s.subscribers[i := Joining])
    case Claim(i, p) =>
      if i !in s.subscribers || s.subscribers[i] != Joining || p in s.producers then s
      else
        var joined := s.(subscribers := s.subscribers[i := Holding]);
        if s.running then joined else Put(joined.(running := true), p, Counting)
    case Unsubscribe(i) =>
      if i in s.subscribers && s.subscribers[i] == Holding then s.(subscribers := s.subscribers[i := Gone]) else s
    case Count(p) =>
      if p !in s.producers || s.producers[p] != Counting then s
      else if HasReceiver(s) then Put(s, p, Reading)
      else Put(s, p, Leaving)
    case Release(p) =>
      if p !in s.producers || s.producers[p] != Leaving then s
      else Put(Clear(w, s), p, Rechecking(!w.delayed))
    case Recheck(p) =>
      if p !in s.producers || !s.producers[p].Rechecking? then s
      else if HasReceiver(s) then Put(s, p, Reclaiming(s.producers[p].visible))
      else Put(s, p, Ended(s.producers[p].visible))
    case Reclaim(p) =>
      // A read-modify-write sees the thread's own earlier store.
      if p !in s.producers || !s.producers[p].Reclaiming? then s
      else if s.running && s.producers[p].visible then Put(s, p, Ended(true))
      else Put(s.(running := true), p, Counting)
    case ReadOk(p) =>
      if p in s.producers && s.producers[p] == Reading then Put(s, p, Counting) else s
    case ReadError(p) =>
      if w.readsFail && p in s.producers && s.producers[p] == Reading then Put(s, p, Failing) else s
    case GiveUp(p) =>
      if p !in s.producers || s.producers[p] != Failing then s
      else Put(Clear(w, s), p, Ended(!w.delayed))
    case Show(p) =>
      if p !in s.producers then s
      else match s.producers[p]
        case Rechecking(false) => Put(s.(running := false), p, Rechecking(true))
        case Reclaiming(false) => Put(s.(running := false), p, Reclaiming(true))
        case Ended(false) => Put(s.(running := false), p, Ended(true))
        case _ => s
  }

  ghost function Run(w: World, s: State, events: seq<Event>): State
    decreases |events|
  {
    if events == [] then s else Run(w, Step(w, s, events[0]), events[1..])
  }

  /** A producer that counts goes on reading exactly while there is a receiver, and after a good read
      it counts again; without one it clears the flag, counts a second time and, if a receiver has
      come, takes the flag back unless another has it.  A failed read clears the flag and ends. */
  lemma ProducerMoves(w: World, s: State, p: nat)
    requires p in s.producers
    ensures var at, heard := s.producers[p], exists i :: i in s.subscribers && s.subscribers[i] != Gone;
            var off := if w.delayed then s else s.(running := false);
            && (at == Counting ==> Step(w, s, Count(p)) == Put(s, p, if heard then Reading else Leaving))
            && (at == Reading ==> Step(w, s, ReadOk(p)) == Put(s, p, Counting))
            && (at == Reading && w.readsFail ==> Step(w, s, ReadError(p)) == Put(s, p, Failing))
            && (at == Leaving ==> Step(w, s, Release(p)) == Put(off, p, Rechecking(!w.delayed)))
            && (at.Rechecking? ==>
                  Step(w, s, Recheck(p)) == Put(s, p, if heard then Reclaiming(at.visible) else Ended(at.visible)))
            && (at.Reclaiming? ==>
                  Step(w, s, Reclaim(p)) ==
                    if s.running && at.visible then Put(s, p, Ended(true)) else Put(s.(running := true), p, Counting))
            && (at == Failing ==> Step(w, s, GiveUp(p)) == Put(off, p, Ended(!w.delayed)))
            && Put(s, p, at).producers == s.producers[p := at]
  {
  }

  // ------------------------------------------------------- mutual exclusion

  /** A producer owns the feed from the moment the flag is set for it until its clearing of
      the flag is visible. */
  predicate Owns(p: Producer) {
    p == Counting || p == Leaving || p == Reading || p == Failing
    || p == Rechecking(false) || p == Reclaiming(false) || p == Ended(false)
  }

  /** The flag is set exactly when there is an owner, and there is never a second one. */
  ghost predicate OneOwner(s: State) {
    && (s.running <==> exists p :: p in s.producers && Owns(s.producers[p]))
    && forall p, q :: p in s.producers && q in s.producers && Owns(s.producers[p]) && Owns(s.producers[q]) ==> p == q
  }

  lemma PutOwner(s: State, running: bool, p: nat, at: Producer)
    requires OneOwner(s)
    requires (p in s.producers && Owns(s.producers[p])) || (!s.running && running)
    requires running <==> Owns(at)
    ensures OneOwner(Put(s.(running := running), p, at))
  {
    var s' := Put(s.(running := running), p, at);
    assert s'.producers[p] == at;
    forall q | q in s'.producers && q != p ensures !Owns(s'.producers[q]) {
      assert q in s.producers && s'.producers[q] == s.producers[q];
    }
  }

  lemma PutIdle(s: State, p: nat, at: Producer)
    requires OneOwner(s) && p in s.producers && !Owns(s.producers[p]) && !Owns(at)
    ensures OneOwner(Put(s, p, at))
  {
    var s' := Put(s, p, at);
    if s.running {
      var q :| q in s.producers && Owns(s.producers[q]);
      assert s'.producers[q] == s.producers[q];
    }
  }

  /** An access by a producer moves that producer and nothing but the flag besides. */
  lemma OnlyMoves(w: World, s: State, e: Event)
    requires Step(w, s, e) != s && !e.Subscribe? && !e.Unsubscribe? && !e.Claim?
    ensures var s' := Step(w, s, e);
            e.p in s.producers && e.p in s'.producers
            && s' == Put(s.(running := s'.running), e.p, s'.producers[e.p])
            && (s'.running == s.running || (s'.running <==> Owns(s'.producers[e.p])))
  {
  }

  lemma OwnerStep(w: World, s: State, e: Event)
    requires OneOwner(s)
    ensures OneOwner(Step(w, s, e))
  {
    var s' := Step(w, s, e);
    match e
    case Subscribe(_) =>
    case Unsubscribe(_) =>
    case Claim(i, p) =>
      if s' != s && !s.running { PutOwner(s, true, p, Counting); }
    case _ =>
      if s' != s {
        OnlyMoves(w, s, e);
        var p := e.p;
        var was, at := s.producers[p], s'.producers[p];
        if Owns(was) || Owns(at) { PutOwner(s, s'.running, p, at); } else { PutIdle(s, p, at); }
      }
  }

  lemma {:induction false} OwnerRun(w: World, s: State, events: seq<Event>)
    requires OneOwner(s)
    ensures OneOwner(Run(w, s, events))
    decreases |events|
  {
    if events != [] {
      OwnerStep(w, s, events[0]);
      OwnerRun(w, Step(w, s, events[0]), events[1..]);
    }
  }

  /** For any number of threads, any interleaving, failing reads and any store delay, at most
      one producer owns the feed, and one does exactly when the flag is set. */
  lemma MutualExclusion(w: World, events: seq<Event>)
    ensures OneOwner(Run(w, Idle, events))
  {
    OwnerRun(w, Idle, events);
  }

  // -------------------------------------------------------- no lost subscriber

  ghost predicate Served(s: State) {
    || s.running
    || exists p :: p in s.producers && (s.producers[p].Rechecking? || s.producers[p].Reclaiming?)
  }

  /** A subscriber that has finished subscribing and kept its receiver is served. */
  ghost predicate NoneLost(s: State) {
    (exists i :: i in s.subscribers && s.subscribers[i] == Holding) ==> Served(s)
  }

  /** Every clearing of the flag is visible and no read has failed. */
  ghost predicate Prompt(s: State) {
    forall p :: p in s.producers ==>
      s.producers[p] != Failing && s.producers[p] != Rechecking(false)
      && s.producers[p] != Reclaiming(false) && s.producers[p] != Ended(false)
  }

  ghost predicate Kept(s: State) {
    OneOwner(s) && Prompt(s) && NoneLost(s)
  }

  lemma ServedStep(s: State, e: Event)
    requires Kept(s)
    ensures Kept(Step(World(false, false), s, e))
  {
    var w := World(false, false);
    var s' := Step(w, s, e);
    OwnerStep(w, s, e);
    if s' != s && !e.Subscribe? && !e.Unsubscribe? && !e.Claim? {
      var p := e.p;
      assert p in s'.producers;
      if e.Recheck? && s'.producers[p].Ended? {
        assert forall i :: i in s'.subscribers ==> s'.subscribers[i] == Gone;
      }
    } else if s' != s && !s'.running && NoneLost(s) && Served(s) {
      var p :| p in s.producers && (s.producers[p].Rechecking? || s.producers[p].Reclaiming?);
      assert s'.producers[p] == s.producers[p];
    }
  }

  lemma {:induction false} ServedRun(s: State, events: seq<Event>)
    requires Kept(s)
    ensures Kept(Run(World(false, false), s, events))
    decreases |events|
  {
    if events != [] {
      ServedStep(s, events[0]);
      ServedRun(Step(World(false, false), s, events[0]), events[1..]);
    }
  }

  ghost predicate Reachable(w: World, s: State) {
    exists events :: Run(w, Idle, events) == s
  }

  lemma {:induction false} RunAppend(w: World, s: State, events: seq<Event>, e: Event)
    ensures Run(w, s, events + [e]) == Step(w, Run(w, s, events), e)
    decreases |events|
  {
    if events == [] {
      assert ([e])[1..] == [];
      assert events + [e] == [e];
    } else {
      assert (events + [e])[1..] == events[1..] + [e];
      RunAppend(w, Step(w, s, events[0]), events[1..], e);
    }
  }

  lemma Then(w: World, s: State, e: Event, s': State)
    requires Reachable(w, s) && Step(w, s, e) == s'
    ensures Reachable(w, s')
  {
    var events :| Run(w, Idle, events) == s;
    RunAppend(w, Idle, events, e);
  }

  /** One subscriber holds its receiver and its producer is counting. */
  predicate Alone(s: State) {
    && s.running
    && s.subscribers.Keys == {0} && s.subscribers[0] == Holding
    && s.producers.Keys == {0} && s.producers[0] == Counting
  }

  lemma Started(w: World) returns (s: State)
    ensures Reachable(w, s) && Alone(s)
  {
    assert Run(w, Idle, []) == Idle;
    var joining := Step(w, Idle, Subscribe(0));
    Then(w, Idle, Subscribe(0), joining);
    s := Step(w, joining, Claim(0, 0));
    Then(w, joining, Claim(0, 0), s);
  }

  lemma ReadFailed(w: World) returns (s: State)
    requires w.readsFail
    ensures Reachable(w, s)
    ensures s.subscribers.Keys == {0} && s.subscribers[0] == Holding
    ensures s.producers.Keys == {0} && s.producers[0] == Failing
  {
    var s0 := Started(w);
    assert HasReceiver(s0);
    var s1 := Put(s0, 0, Reading);
    Then(w, s0, Count(0), s1);
    s := Put(s1, 0, Failing);
    Then(w, s1, ReadError(0), s);
  }

  /** A failed read leaves a waiting subscriber without a producer. */
  lemma FailedReadLoses(w: World)
    requires w.readsFail
    ensures exists s :: Reachable(w, s) && !NoneLost(s)
  {
    var s0 := ReadFailed(w);
    var s1 := Put(Clear(w, s0), 0, Ended(!w.delayed));
    Then(w, s0, GiveUp(0), s1);
    ShownLoses(w, s1);
  }

  lemma ShownLoses(w: World, s: State)
    requires Reachable(w, s) && s.subscribers.Keys == {0} && s.subscribers[0] == Holding
    requires s.producers.Keys == {0} && s.producers[0].Ended? && (s.producers[0].visible ==> !s.running)
    ensures exists s' :: Reachable(w, s') && !NoneLost(s')
  {
    var s' := Step(w, s, Show(0));
    Then(w, s, Show(0), s');
    assert s'.producers.Keys == {0} && s'.producers[0] == Ended(true);
    assert s'.subscribers[0] == Holding;
    assert !NoneLost(s');
  }

  /** The only receiver is dropped, and the producer is about to leave. */
  lemma Dropped(w: World) returns (s: State)
    ensures Reachable(w, s) && s.running && s.subscribers.Keys == {0} && s.subscribers[0] == Gone
    ensures s.producers.Keys == {0} && s.producers[0] == Leaving
  {
    var s0 := Started(w);
    var s1 := s0.(subscribers := s0.subscribers[0 := Gone]);
    Then(w, s0, Unsubscribe(0), s1);
    assert !HasReceiver(s1);
    s := Put(s1, 0, Leaving);
    Then(w, s1, Count(0), s);
  }

  /** The producer leaves with its clearing of the flag not yet visible. */
  lemma LeftLate(w: World) returns (s: State)
    requires w.delayed
    ensures Reachable(w, s) && s.running && 1 !in s.subscribers
    ensures s.producers.Keys == {0} && s.producers[0] == Ended(false)
  {
    var s0 := Dropped(w);
    assert !HasReceiver(s0);
    var s1 := Put(s0, 0, Rechecking(false));
    Then(w, s0, Release(0), s1);
    s := Put(s1, 0, Ended(false));
    Then(w, s1, Recheck(0), s);
  }

  /** If the clearing store may be seen late, a subscriber can find the flag still set after
      the producer has already looked for receivers a second time and gone. */
  lemma LateStoreLoses(w: World)
    requires w.delayed
    ensures exists s :: Reachable(w, s) && !NoneLost(s)
  {
    var s0 := LeftLate(w);
    var s1 := s0.(subscribers := s0.subscribers[1 := Joining]);
    Then(w, s0, Subscribe(1), s1);
    var s2 := s1.(subscribers := s1.subscribers[1 := Holding]);
    Then(w, s1, Claim(1, 1), s2);
    var s3 := Put(s2.(running := false), 0, Ended(true));
    Then(w, s2, Show(0), s3);
    assert s3.subscribers[1] == Holding;
    assert !NoneLost(s3);
  }

  /** No subscriber is ever lost if and only if reads never fail and the clearing store is
      ordered before the recheck. */
  lemma NoneLostExactlyWhen(w: World)
    ensures (forall s :: Reachable(w, s) ==> NoneLost(s)) <==> !w.readsFail && !w.delayed
  {
    if w.readsFail {
      FailedReadLoses(w);
    } else if w.delayed {
      LateStoreLoses(w);
    } else {
      forall s | Reachable(w, s) ensures NoneLost(s) {
        var events :| Run(w, Idle, events) == s;
        ServedRun(Idle, events);
      }
    }
  }

  /** A lost feed is not lost for good: the next subscriber starts a producer. */
  lemma NextSubscriberRestarts(w: World, s: State, i: nat, p: nat)
    requires i !in s.subscribers && p !in s.producers && !s.running
    ensures var s' := Step(w, Step(w, s, Subscribe(i)), Claim(i, p));
            s'.running && p in s'.producers && s'.producers[p] == Counting && s'.subscribers[i] == Holding
  {
  }
}
