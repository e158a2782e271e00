/** The browser's live connection. */
module LiveTransport {
  import opened Wrappers

  /* One socket at most, a retry timer, a watchdog interval, and a changing set of
     subscriptions.

     The surroundings (sockets with their ready states, pending timers, running intervals and
     queued microtasks) are part of the state.  Listeners may subscribe and unsubscribe while an
     event is being published to them; `acts` is what they do. */

  datatype Ready = Connecting | Open | Closing | Closed

  /** `retry` and `watchdog` are the program's variables; `timers` and `intervals` are what is
      really pending.  An interval watches one socket. */
  datatype State = State(
    subscriptions: set<nat>,
    socket: Option<nat>,
    retry: Option<nat>,
    watchdog: Option<nat>,
    attempts: nat,
    sockets: map<nat, Ready>,
    timers: set<nat>,
    intervals: map<nat, nat>,
    microtasks: nat)

  datatype Act = Subscribe(key: nat) | Unsubscribe(key: nat)

  /** What the surroundings do next.  New sockets, timers and intervals get the given id. */
  datatype Event =
    | User(act: Act)
    | Microtask(socket: nat)
    | RetryFires(timer: nat, socket: nat)
    | Opens(socket: nat, acts: seq<Act>, interval: nat)
    | Message(socket: nat, valid: bool, acts: seq<Act>)
    | Fails(socket: nat)
    | Closes(socket: nat, acts: seq<Act>, timer: nat)
    | Ticks(interval: nat, stale: bool)

  const Initial := State({}, None, None, None, 0, map[], {}, map[], 0)

  // ----------------------------------------------------------------- handlers

  function Forget(timers: set<nat>, timer: Option<nat>): set<nat> {
    if timer.Some? then timers - {timer.value} else timers
  }

  function Stop(intervals: map<nat, nat>, interval: Option<nat>): map<nat, nat> {
    if interval.Some? then intervals - {interval.value} else intervals
  }

  /** `close()` on a socket that is already closing or closed does nothing. */
  function Close(sockets: map<nat, Ready>, id: nat): map<nat, Ready> {
    if id in sockets && (sockets[id] == Connecting || sockets[id] == Open) then sockets[id := Closing] else sockets
  }

  function Connected(s: State, next: nat): State {
    if s.subscriptions == {} || s.socket.Some? then s
    else s.(socket := Some(next), sockets := s.sockets[next := Connecting], timers := Forget(s.timers, s.retry))
  }

  predicate IsOpen(s: State) {
    s.socket.Some? && s.socket.value in s.sockets && s.sockets[s.socket.value] == Open
  }

  function ActOn(s: State, act: Act): State {
    match act
    case Subscribe(key) =>
      s.(subscriptions := s.subscriptions + {key}, microtasks := if IsOpen(s) then s.microtasks else s.microtasks + 1)
    case Unsubscribe(key) =>
      var rest := s.subscriptions - {key};
      if rest != {} then s.(subscriptions := rest)
      else s.(subscriptions := {}, socket := None,
              timers := Forget(s.timers, s.retry), intervals := Stop(s.intervals, s.watchdog),
              sockets := if s.socket.Some? then Close(s.sockets, s.socket.value) else s.sockets)
  }

  function ActAll(s: State, acts: seq<Act>): State {
    if acts == [] then s else ActOn(ActAll(s, acts[..|acts| - 1]), acts[|acts| - 1])
  }

  function OnOpen(s: State, id: nat, acts: seq<Act>, interval: nat): State {
    var ready := s.(sockets := s.sockets[id := Open]);
    if s.socket != Some(id) then ready
    else
      var told := ActAll(ready, acts);
      told.(watchdog := Some(interval), intervals := told.intervals[interval := id])
  }

  function OnClose(s: State, id: nat, acts: seq<Act>, timer: nat): State {
    var closed := s.(sockets := s.sockets[id := Closed]);
    if s.socket != Some(id) then closed
    else
      var told := ActAll(closed.(socket := None, intervals := Stop(s.intervals, s.watchdog)), acts);
      if told.subscriptions == {} then told
      else told.(retry := Some(timer), timers := told.timers + {timer}, attempts := told.attempts + 1)
  }

  /** Milliseconds before the next attempt. */
  function Delay(attempts: nat): nat {
    if 1000 * Power(attempts) <= 30000 then 1000 * Power(attempts) else 30000
  }

  function Power(n: nat): nat {
    if n == 0 then 1 else 2 * Power(n - 1)
  }

  /** One event.  An event that cannot happen in the current state changes nothing. */
  function Step(s: State, e: Event): State {
    match e
    case User(act) => ActOn(s, act)
    case Microtask(next) =>
      if s.microtasks == 0 || next in s.sockets then s
      else Connected(s.(microtasks := s.microtasks - 1), next)
    case RetryFires(timer, next) =>
      if timer !in s.timers || next in s.sockets then s
      else Connected(s.(timers := s.timers - {timer}), next)
    case Opens(id, acts, interval) =>
      if id !in s.sockets || s.sockets[id] != Connecting || interval in s.intervals then s
      else OnOpen(s, id, acts, interval)
    case Message(id, valid, acts) =>
      if id !in s.sockets || s.sockets[id] != Open || s.socket != Some(id) then s
      else if valid then ActAll(s.(attempts := 0), acts)
      else s.(sockets := Close(s.sockets, id))
    case Fails(id) => s.(sockets := Close(s.sockets, id))
    case Closes(id, acts, timer) =>
      if id !in s.sockets || s.sockets[id] == Closed || timer in s.timers then s
      else OnClose(s, id, acts, timer)
    case Ticks(interval, stale) =>
      if interval in s.intervals && stale then s.(sockets := Close(s.sockets, s.intervals[interval])) else s
  }

  function Run(s: State, events: seq<Event>): State
    decreases |events|
  {
    if events == [] then s else Run(Step(s, events[0]), events[1..])
  }

  // ---------------------------------------------------------------- invariant

  /** No socket but the current one can still connect or carry messages. */
  ghost predicate SocketsOk(s: State) {
    && (s.socket.Some? ==> s.socket.value in s.sockets && s.sockets[s.socket.value] != Closed)
    && forall id :: id in s.sockets && s.socket != Some(id) ==> s.sockets[id] == Closing || s.sockets[id] == Closed
  }

  /** At most one retry is pending, and only while there is no socket. */
  ghost predicate RetryOk(s: State) {
    && (forall t :: t in s.timers ==> s.retry == Some(t))
    && (s.timers != {} ==> s.socket.None? && s.subscriptions != {})
  }

  /** At most one watchdog runs, and it watches the current socket, which has opened. */
  ghost predicate WatchdogOk(s: State) {
    forall i :: i in s.intervals ==>
      s.watchdog == Some(i) && s.socket == Some(s.intervals[i])
      && s.intervals[i] in s.sockets && s.sockets[s.intervals[i]] != Connecting
  }

  /** Without subscriptions nothing is left running. */
  ghost predicate IdleOk(s: State) {
    s.subscriptions == {} ==> s.socket.None? && s.timers == {} && s.intervals == map[]
  }

  /** With subscriptions a connection exists or is on its way, and an open one is watched. */
  ghost predicate LiveOk(s: State) {
    && (s.subscriptions != {} ==> s.socket.Some? || s.timers != {} || s.microtasks > 0)
    && (IsOpen(s) ==> s.intervals != map[])
  }

  ghost predicate Safe(s: State) {
    SocketsOk(s) && RetryOk(s) && WatchdogOk(s) && IdleOk(s)
  }

  ghost predicate Inv(s: State) {
    Safe(s) && LiveOk(s)
  }

  // ----------------------------------------------------- what listeners can do

  /** Acting on the subscriptions never leaves anything running without need. */
  lemma {:induction false} ActsSafe(s: State, acts: seq<Act>)
    requires Safe(s)
    ensures Safe(ActAll(s, acts))
  {
    if acts != [] { ActsSafe(s, acts[..|acts| - 1]); }
  }

  lemma ActLive(s: State, act: Act)
    requires Inv(s)
    ensures Inv(ActOn(s, act))
  {
  }

  lemma {:induction false} ActsLive(s: State, acts: seq<Act>)
    requires Inv(s)
    ensures Inv(ActAll(s, acts))
  {
    if acts != [] {
      ActsLive(s, acts[..|acts| - 1]);
      ActLive(ActAll(s, acts[..|acts| - 1]), acts[|acts| - 1]);
    }
  }

  function Remaining(subscriptions: set<nat>, acts: seq<Act>): set<nat> {
    if acts == [] then subscriptions
    else
      var before := Remaining(subscriptions, acts[..|acts| - 1]);
      var last := acts[|acts| - 1];
      if last.Subscribe? then before + {last.key} else before - {last.key}
  }

  /** The listeners never take away the last subscription, not even for a moment. */
  predicate NeverEmptied(subscriptions: set<nat>, acts: seq<Act>) {
    acts == [] ||
    (NeverEmptied(subscriptions, acts[..|acts| - 1]) &&
     (acts[|acts| - 1].Unsubscribe? ==> Remaining(subscriptions, acts) != {}))
  }

  /** The current socket survives what the listeners do exactly when they never take away the
      last subscription; it is then still as open as it was. */
  lemma {:induction false} SocketSurvives(s: State, acts: seq<Act>)
    requires s.socket.Some? && s.socket.value in s.sockets
    ensures ActAll(s, acts).subscriptions == Remaining(s.subscriptions, acts)
    ensures NeverEmptied(s.subscriptions, acts) ==>
              ActAll(s, acts).socket == s.socket && ActAll(s, acts).sockets == s.sockets
              && ActAll(s, acts).intervals == s.intervals && ActAll(s, acts).timers == s.timers
    ensures !NeverEmptied(s.subscriptions, acts) ==> ActAll(s, acts).socket.None?
  {
    if acts != [] { SocketSurvives(s, acts[..|acts| - 1]); }
  }

  // ------------------------------------------------------------------- events

  lemma CloseKeeps(s: State, id: nat)
    requires Inv(s)
    ensures Inv(s.(sockets := Close(s.sockets, id)))
  {
  }

  lemma ConnectKeeps(s: State, microtasks: nat, timers: set<nat>, next: nat)
    requires Inv(s) && next !in s.sockets && timers <= s.timers
    ensures Inv(Connected(s.(microtasks := microtasks, timers := timers), next))
  {
    if s.subscriptions != {} && s.socket.None? {
      assert Forget(timers, s.retry) == {};
    }
  }

  /** Opening is the one event that can break the invariant: it does so exactly when a listener
      takes away the last subscription while it is being told of the connection.  The watchdog
      is started afterwards all the same, for a socket that is no longer current. */
  lemma OpenKeepsExactlyWhen(s: State, id: nat, acts: seq<Act>, interval: nat)
    requires Inv(s) && s.socket == Some(id) && s.sockets[id] == Connecting && interval !in s.intervals
    ensures Inv(OnOpen(s, id, acts, interval)) <==> NeverEmptied(s.subscriptions, acts)
  {
    var ready := s.(sockets := s.sockets[id := Open]);
    SocketSurvives(ready, acts);
    assert s.intervals == map[];
    ActsSafe(ready, acts);
    var s' := OnOpen(s, id, acts, interval);
    assert interval in s'.intervals;
  }

  /** Closing keeps the invariant.  When the current socket closes, no socket and no watchdog
      is left, and one retry is pending exactly if the listeners leave a subscription. */
  lemma CloseEventKeeps(s: State, id: nat, acts: seq<Act>, timer: nat)
    requires Inv(s) && id in s.sockets && timer !in s.timers
    ensures var s' := OnClose(s, id, acts, timer);
            Inv(s') && (s.socket == Some(id) ==>
              s'.socket.None? && s'.intervals == map[]
              && s'.timers == (if Remaining(s.subscriptions, acts) == {} then {} else {timer}))
  {
    if s.socket == Some(id) {
      var cut := s.(sockets := s.sockets[id := Closed], socket := None, intervals := Stop(s.intervals, s.watchdog));
      assert cut.intervals == map[];
      assert Safe(cut);
      ActsSafe(cut, acts);
      NoSocketNoWatch(cut, acts);
    }
  }

  lemma {:induction false} NoSocketNoWatch(s: State, acts: seq<Act>)
    requires s.socket.None? && s.intervals == map[] && s.timers == {}
    ensures ActAll(s, acts).socket.None? && ActAll(s, acts).intervals == map[] && ActAll(s, acts).timers == {}
    ensures ActAll(s, acts).subscriptions == Remaining(s.subscriptions, acts)
  {
    if acts != [] { NoSocketNoWatch(s, acts[..|acts| - 1]); }
  }

  /** The current socket now opens. */
  predicate OpensNow(s: State, e: Event) {
    e.Opens? && s.socket == Some(e.socket) && e.interval !in s.intervals
    && e.socket in s.sockets && s.sockets[e.socket] == Connecting
  }

  predicate Polite(s: State, e: Event) {
    OpensNow(s, e) ==> NeverEmptied(s.subscriptions, e.acts)
  }

  lemma StepKeeps(s: State, e: Event)
    requires Inv(s)
    ensures Inv(Step(s, e)) <==> Polite(s, e)
  {
    match e
    case User(act) => ActLive(s, act);
    case Microtask(next) => if s.microtasks > 0 && next !in s.sockets {
      ConnectKeeps(s, s.microtasks - 1, s.timers, next);
    }
    case RetryFires(timer, next) => if next !in s.sockets { ConnectKeeps(s, s.microtasks, s.timers - {timer}, next); }
    case Opens(id, acts, interval) =>
      if OpensNow(s, e) { OpenKeepsExactlyWhen(s, id, acts, interval); }
    case Message(id, valid, acts) => CloseKeeps(s, id); ActsLive(s.(attempts := 0), acts);
    case Fails(id) => CloseKeeps(s, id);
    case Closes(id, acts, timer) => if Step(s, e) != s { CloseEventKeeps(s, id, acts, timer); }
    case Ticks(interval, _) => if interval in s.intervals { CloseKeeps(s, s.intervals[interval]); }
  }

  predicate PoliteRun(s: State, events: seq<Event>)
    decreases |events|
  {
    events == [] || (Polite(s, events[0]) && PoliteRun(Step(s, events[0]), events[1..]))
  }

  /** The invariant holds now and after each of the events. */
  ghost predicate Throughout(s: State, events: seq<Event>)
    decreases |events|
  {
    Inv(s) && (events == [] || Throughout(Step(s, events[0]), events[1..]))
  }

  /** Whatever the network, the timers and the listeners do, the invariant holds throughout if
      and only if no listener drops the last subscription when told that the connection is up. */
  lemma {:induction false} RunKeeps(s: State, events: seq<Event>)
    requires Inv(s)
    ensures Throughout(s, events) <==> PoliteRun(s, events)
    ensures PoliteRun(s, events) ==> Inv(Run(s, events))
    decreases |events|
  {
    if events != [] {
      StepKeeps(s, events[0]);
      if Polite(s, events[0]) { RunKeeps(Step(s, events[0]), events[1..]); }
    }
  }

  /** The same from the first subscription on. */
  lemma KeptExactlyWhen(events: seq<Event>)
    ensures Inv(Initial)
    ensures Throughout(Initial, events) <==> PoliteRun(Initial, events)
    ensures PoliteRun(Initial, events) ==> Inv(Run(Initial, events))
  {
    RunKeeps(Initial, events);
  }

  /** A socket that is not the current one changes its own ready state and nothing else. */
  lemma StaleSocketsAreIgnored(s: State, e: Event)
    requires e.Opens? || e.Message? || e.Closes? || e.Fails?
    requires s.socket != Some(e.socket)
    ensures Step(s, e).(sockets := s.sockets) == s
    ensures forall id :: id in s.sockets && id != e.socket ==>
            id in Step(s, e).sockets && Step(s, e).sockets[id] == s.sockets[id]
  {
  }

  // ------------------------------------------------------ what the surroundings do

  /** A queued connect or a retry that fires opens a new socket exactly when there are
      subscriptions and no current socket, and takes back the pending retry. */
  lemma ConnectsExactlyWhen(s: State, timer: nat, next: nat)
    requires next !in s.sockets
    ensures var opens := s.subscriptions != {} && s.socket.None?;
            var timers := if opens && s.retry.Some? then s.timers - {s.retry.value} else s.timers;
            var linked := if !opens then s else
              s.(socket := Some(next), sockets := s.sockets[next := Connecting], timers := timers);
            && (s.microtasks > 0 ==> Step(s, Microtask(next)) == linked.(microtasks := s.microtasks - 1))
            && (s.microtasks == 0 ==> Step(s, Microtask(next)) == s)
            && (timer in s.timers ==> Step(s, RetryFires(timer, next)) == linked.(timers := timers - {timer}))
            && (timer !in s.timers ==> Step(s, RetryFires(timer, next)) == s)
  {
  }

  /** A readable message on the current socket counts the attempts from zero again and is
      published; an unreadable one closes the socket. */
  lemma MessagesCountAnew(s: State, id: nat, acts: seq<Act>)
    requires s.socket == Some(id) && id in s.sockets && s.sockets[id] == Open
    ensures Step(s, Message(id, true, acts)) == ActAll(s.(attempts := 0), acts)
    ensures Step(s, Message(id, false, acts)) == s.(sockets := s.sockets[id := Closing])
  {
  }

  /** An error closes the socket it happens on, and a stale interval the one it watches; closing
      an open or connecting socket takes time. */
  lemma ErrorsClose(s: State, id: nat, interval: nat)
    requires id in s.sockets
    ensures var going := s.sockets[id] == Connecting || s.sockets[id] == Open;
            var closing := if going then s.(sockets := s.sockets[id := Closing]) else s;
            && Step(s, Fails(id)) == closing
            && (interval in s.intervals && s.intervals[interval] == id ==>
                  Step(s, Ticks(interval, true)) == closing && Step(s, Ticks(interval, false)) == s)
  {
  }

  lemma {:induction false} ActsKeepAttempts(s: State, acts: seq<Act>)
    ensures ActAll(s, acts).attempts == s.attempts && ActAll(s, acts).retry == s.retry
    ensures ActAll(s, acts).subscriptions == Remaining(s.subscriptions, acts)
  {
    if acts != [] { ActsKeepAttempts(s, acts[..|acts| - 1]); }
  }

  /** Only a retry that is scheduled raises the attempts, by one, and it is the pending one. */
  lemma CloseCountsAttempts(s: State, id: nat, acts: seq<Act>, timer: nat)
    requires id in s.sockets && s.sockets[id] != Closed && timer !in s.timers && s.socket == Some(id)
    ensures var t := Step(s, Closes(id, acts, timer));
            && t.subscriptions == Remaining(s.subscriptions, acts)
            && t.attempts == (if t.subscriptions == {} then s.attempts else s.attempts + 1)
            && t.retry == (if t.subscriptions == {} then s.retry else Some(timer))
            && id in t.sockets && (acts == [] ==> t.sockets == s.sockets[id := Closed])
  {
    var cut := s.(sockets := s.sockets[id := Closed], socket := None, intervals := Stop(s.intervals, s.watchdog));
    ActsKeepAttempts(cut, acts);
    NoSocketKeepsSockets(cut, acts);
  }

  lemma {:induction false} NoSocketKeepsSockets(s: State, acts: seq<Act>)
    requires s.socket.None?
    ensures ActAll(s, acts).sockets == s.sockets && ActAll(s, acts).socket.None?
  {
    if acts != [] { NoSocketKeepsSockets(s, acts[..|acts| - 1]); }
  }

  /** Opening starts the watchdog of the socket and counts no attempts anew. */
  lemma OpeningKeepsAttempts(s: State, id: nat, acts: seq<Act>, interval: nat)
    requires s.socket == Some(id) && id in s.sockets && s.sockets[id] == Connecting && interval !in s.intervals
    ensures var t := Step(s, Opens(id, acts, interval));
            && t.attempts == s.attempts && t.retry == s.retry && t.subscriptions == Remaining(s.subscriptions, acts)
            && t.watchdog == Some(interval) && interval in t.intervals && t.intervals[interval] == id
            && (acts == [] ==> t == s.(sockets := s.sockets[id := Open], watchdog := Some(interval),
                                       intervals := s.intervals[interval := id]))
  {
    ActsKeepAttempts(s.(sockets := s.sockets[id := Open]), acts);
  }

  /** The last subscription to go takes the retry, the watchdog and the socket with it; any other
      takes nothing. */
  lemma UnsubscribingStops(s: State, key: nat)
    ensures var t := Step(s, User(Unsubscribe(key)));
            if s.subscriptions - {key} != {} then t == s.(subscriptions := s.subscriptions - {key})
            else
              && t.subscriptions == {} && t.socket.None?
              && t.timers == (if s.retry.Some? then s.timers - {s.retry.value} else s.timers)
              && t.intervals == (if s.watchdog.Some? then s.intervals - {s.watchdog.value} else s.intervals)
              && (s.socket.Some? && s.socket.value in s.sockets && s.sockets[s.socket.value] in {Connecting, Open} ==>
                    t.sockets == s.sockets[s.socket.value := Closing])
              && (s.socket.None? ==> t.sockets == s.sockets)
              && t.retry == s.retry && t.attempts == s.attempts && t.microtasks == s.microtasks
  {
  }

  /** Subscribing connects later unless the connection is open; nothing is pending at first. */
  lemma SubscribingConnects(s: State, key: nat)
    ensures var t := Step(s, User(Subscribe(key)));
            && t.(microtasks := s.microtasks) == s.(subscriptions := s.subscriptions + {key})
            && t.microtasks == s.microtasks +
                 (if s.socket.Some? && s.socket.value in s.sockets && s.sockets[s.socket.value] == Open then 0 else 1)
    ensures Initial.attempts == 0 && Initial.microtasks == 0
  {
  }

  /** The smallest way to leave a watchdog behind: one listener, which unsubscribes when it
      hears that the connection is up. */
  lemma WatchdogLeftBehind()
    ensures var s := Run(Initial, [User(Subscribe(7)), Microtask(0), Opens(0, [Unsubscribe(7)], 0)]);
            s.subscriptions == {} && s.socket.None? && s.intervals == map[0 := 0]
  {
    var s1 := Step(Initial, User(Subscribe(7)));
    var s2 := Step(s1, Microtask(0));
    assert s2.socket == Some(0) && s2.subscriptions == {7} && s2.intervals == map[];
    var ready := s2.(sockets := s2.sockets[0 := Open]);
    assert ActAll(ready, [Unsubscribe(7)]) == ActOn(ready, Unsubscribe(7)) by {
      assert [Unsubscribe(7)][..0] == [];
      assert ActAll(ready, []) == ready;
    }
    var s3 := Step(s2, Opens(0, [Unsubscribe(7)], 0));
    assert s3.intervals == map[0 := 0];
    var events := [User(Subscribe(7)), Microtask(0), Opens(0, [Unsubscribe(7)], 0)];
    assert Run(Initial, events) == Run(s1, events[1..]) == Run(s2, events[1..][1..]) == Run(s3, events[1..][1..][1..]);
  }

  /** Waiting doubles from one second and stops at thirty. */
  lemma {:induction false} DelayDoubles(n: nat)
    ensures Delay(0) == 1000 && Delay(n) >= 1000
    ensures Delay(n + 1) == if 2 * Delay(n) <= 30000 then 2 * Delay(n) else 30000
  {
    if n > 0 { DelayDoubles(n - 1); }
  }

  // -------------------------------------------------------------- the program

  /** The closure's variables and the surroundings it works on. */
  class Connection {
    var subscriptions: set<nat>
    var socket: Option<nat>
    var retry: Option<nat>
    var watchdog: Option<nat>
    var attempts: nat
    var sockets: map<nat, Ready>
    var timers: set<nat>
    var intervals: map<nat, nat>
    var microtasks: nat

    function Snapshot(): State
      reads this
    {
      State(subscriptions, socket, retry, watchdog, attempts, sockets, timers, intervals, microtasks)
    }

    constructor ()
      ensures Snapshot() == Initial
    {
      subscriptions, socket, retry, watchdog, attempts := {}, None, None, None, 0;
      sockets, timers, intervals, microtasks := map[], {}, map[], 0;
    }

    method ClearTimers(interval: bool)
      modifies this`timers, this`intervals
      ensures timers == Forget(old(timers), retry)
      ensures intervals == if interval then Stop(old(intervals), watchdog) else old(intervals)
    {
      if retry.Some? { timers := timers - {retry.value}; }
      if interval && watchdog.Some? { intervals := intervals - {watchdog.value}; }
    }

    /** Called by the microtask and by the retry timer. */
    method Connect(next: nat)
      modifies this
      ensures Snapshot() == Connected(old(Snapshot()), next)
    {
      if subscriptions == {} || socket.Some? { return; }
      ClearTimers(false);
      sockets := sockets[next := Connecting];
      socket := Some(next);
    }

    method Subscribe(key: nat)
      modifies this
      ensures Snapshot() == ActOn(old(Snapshot()), Act.Subscribe(key))
    {
      subscriptions := subscriptions + {key};
      if !IsOpen(Snapshot()) { microtasks := microtasks + 1; }
    }

    method Unsubscribe(key: nat)
      modifies this
      ensures Snapshot() == ActOn(old(Snapshot()), Act.Unsubscribe(key))
    {
      subscriptions := subscriptions - {key};
      if subscriptions != {} { return; }
      ClearTimers(true);
      var previous := socket;
      socket := None;
      if previous.Some? { sockets := Close(sockets, previous.value); }
    }

    /** The listeners hear an event and act on the subscriptions while they do. */
    method Publish(acts: seq<Act>)
      modifies this
      ensures Snapshot() == ActAll(old(Snapshot()), acts)
    {
      for i := 0 to |acts|
        invariant Snapshot() == ActAll(old(Snapshot()), acts[..i])
      {
        assert acts[..i + 1][..i] == acts[..i];
        match acts[i] {
          case Subscribe(key) => Subscribe(key);
          case Unsubscribe(key) => Unsubscribe(key);
        }
      }
      assert acts[..|acts|] == acts;
    }

    method HandleOpen(current: nat, acts: seq<Act>, interval: nat)
      modifies this
      ensures Snapshot() == OnOpen(old(Snapshot()), current, acts, interval)
    {
      sockets := sockets[current := Open];
      if socket != Some(current) { return; }
      Publish(acts);
      watchdog := Some(interval);
      intervals := intervals[interval := current];
    }

    /** A retry is scheduled after the delay for the attempts so far. */
    method HandleClose(current: nat, acts: seq<Act>, timer: nat) returns (wait: Option<nat>)
      modifies this
      ensures Snapshot() == OnClose(old(Snapshot()), current, acts, timer)
      ensures wait == if old(socket) == Some(current) && subscriptions != {} then Some(Delay(old(attempts))) else None
    {
      wait := None;
      sockets := sockets[current := Closed];
      if socket != Some(current) { return; }
      socket := None;
      ghost var watchdog0 := watchdog;
      if watchdog.Some? { intervals := intervals - {watchdog.value}; }
      Publish(acts);
      if subscriptions != {} {
        ActsKeepAttempts(old(Snapshot()).(sockets := old(sockets)[current := Closed], socket := None,
          intervals := Stop(old(intervals), watchdog0)), acts);
        wait := Some(Delay(attempts));
        retry, timers := Some(timer), timers + {timer};
        attempts := attempts + 1;
      }
    }
  }
}
