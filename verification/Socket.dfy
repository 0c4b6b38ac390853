/**
 * The reconnecting socket: it replaces its inner WebSocket after each loss, until the user closes it.  The
 * events are those of the browser (open, close, timers) and of the user (close, refresh), in any order.
 */
module Socket {
  import opened Wrappers

  datatype Phase = Connecting | Open | Closing | Closed

  /** An inner WebSocket, its pending timeout, and the `reconnectAttempt` its handlers share. */
  datatype Inner = Inner(phase: Phase, timeout: bool, attempt: bool)

  /** The calls of the user's handlers. */
  datatype Call = OnConnecting | OnOpen | OnClose

  datatype State = State(
    sockets: seq<Inner>, ws: Option<nat>, forcedClose: bool, timedOut: bool, readyState: Phase, timers: nat,
    calls: seq<Call>)

  datatype Event = Opens(i: nat) | Closes(i: nat) | TimesOut(i: nat) | Reconnects | UserCloses | UserRefreshes

  /** What the browser may do: an inner socket opens while it connects and closes once, and a pending timer fires. */
  predicate Enabled(s: State, e: Event) {
    match e
    case Opens(i) => i < |s.sockets| && s.sockets[i].phase == Connecting
    case Closes(i) => i < |s.sockets| && s.sockets[i].phase != Closed
    case TimesOut(i) => i < |s.sockets| && s.sockets[i].timeout
    case Reconnects => s.timers > 0
    case UserCloses => true
    case UserRefreshes => true
  }

  /** `close` of an inner socket, which closes some time later. */
  function ShutInner(n: Inner): Inner {
    if n.phase == Closed then n else n.(phase := Closing)
  }

  function Connected(s: State, attempt: bool): State {
    s.(sockets := s.sockets + [Inner(Connecting, true, attempt)], ws := Some(|s.sockets|),
        calls := s.calls + [OnConnecting])
  }

  function ShutCurrent(s: State): State {
    if s.ws.Some? && s.ws.value < |s.sockets| then
      s.(sockets := s.sockets[s.ws.value := ShutInner(s.sockets[s.ws.value])])
    else s
  }

  /** What an event does; events the browser would not raise do nothing. */
  function Step(s: State, e: Event): State {
    if !Enabled(s, e) then s
    else
      match e
      case Opens(i) =>
        s.(sockets := s.sockets[i := Inner(Open, false, false)], readyState := Open, calls := s.calls + [OnOpen])
      case Closes(i) =>
        var t := s.(sockets := s.sockets[i := s.sockets[i].(phase := Closed, timeout := false)], ws := None);
        if s.forcedClose then t.(readyState := Closed, calls := s.calls + [OnClose])
        else t.(readyState := Connecting, timers := s.timers + 1,
                calls := s.calls + [OnConnecting] + if !s.sockets[i].attempt && !s.timedOut then [OnClose] else [])
      case TimesOut(i) => s.(sockets := s.sockets[i := ShutInner(s.sockets[i]).(timeout := false)], timedOut := false)
      case Reconnects => Connected(s.(timers := s.timers - 1), true)
      case UserCloses => if s.ws.Some? then ShutCurrent(s.(forcedClose := true)) else s
      case UserRefreshes => ShutCurrent(s)
  }

  /** A new socket connects at once, and counts as an attempt to reconnect: it passes its address for the flag. */
  function Init(): State {
    Connected(State([], None, false, false, Connecting, 0, []), true)
  }

  function Run(events: seq<Event>): State {
    if events == [] then Init() else Step(Run(events[..|events| - 1]), events[|events| - 1])
  }

  /** The inner sockets that are not closed. */
  function Live(sockets: seq<Inner>): nat {
    if sockets == [] then 0
    else Live(sockets[..|sockets| - 1]) + if sockets[|sockets| - 1].phase == Closed then 0 else 1
  }

  /** The calls of `onopen` and `onclose`. */
  function Visible(calls: seq<Call>): seq<Call> {
    if calls == [] then []
    else Visible(calls[..|calls| - 1]) + if calls[|calls| - 1] == OnConnecting then [] else [calls[|calls| - 1]]
  }

  ghost predicate Alternates(v: seq<Call>) {
    forall i :: 0 <= i < |v| ==> v[i] == if i % 2 == 0 then OnOpen else OnClose
  }

  /** Whether the last call was `onopen`, if the calls of `onopen` and `onclose` took turns; none if they did not. */
  function Turns(v: seq<Call>): Option<bool> {
    if v == [] then Some(false)
    else
      var opens := v[|v| - 1] == OnOpen;
      if Turns(v[..|v| - 1]) == Some(!opens) then Some(opens) else None
  }

  lemma {:induction false} TurnsAlternate(v: seq<Call>)
    requires forall i :: 0 <= i < |v| ==> v[i] != OnConnecting
    ensures Turns(v).Some? <==> Alternates(v)
    ensures Turns(v).Some? ==> Turns(v).value == (|v| % 2 == 1)
  {
    if v != [] {
      var n := |v| - 1;
      TurnsAlternate(v[..n]);
      assert Alternates(v) <==> Alternates(v[..n]) && v[n] == if n % 2 == 0 then OnOpen else OnClose by {
        assert forall i :: 0 <= i < n ==> v[..n][i] == v[i];
      }
    }
  }

  lemma TurnsMore(v: seq<Call>, c: Call)
    ensures (v + [c])[..|v|] == v
    ensures Turns(v + [c]) == if Turns(v) == Some(c != OnOpen) then Some(c == OnOpen) else None
  {
    assert (v + [c])[..|v|] == v;
  }

  ghost predicate OnlyLive(sockets: seq<Inner>, live: Option<nat>) {
    && (live.Some? ==> live.value < |sockets| && sockets[live.value].phase != Closed)
    && forall j :: 0 <= j < |sockets| && live != Some(j) ==> sockets[j].phase == Closed && !sockets[j].timeout
  }

  /** Connected or connecting, waiting to reconnect, or closed for good. */
  ghost predicate Inv(s: State) {
    && !s.timedOut && OnlyLive(s.sockets, s.ws)
    && var v := Visible(s.calls);
    if s.ws.Some? then
      var n := s.sockets[s.ws.value];
      && s.timers == 0 && s.readyState == (if n.attempt then Connecting else Open)
      && (n.phase == Connecting ==> n.attempt) && (n.phase == Open ==> !n.attempt) && (n.timeout ==> n.attempt)
      && (s.forcedClose ==> n.phase == Closing)
      && Turns(v) == Some(!n.attempt)
    else if !s.forcedClose then
      s.timers == 1 && s.readyState == Connecting && Turns(v) == Some(false)
    else
      s.timers == 0 && s.readyState == Closed && v != [] && Turns(v[..|v| - 1]).Some? && v[|v| - 1] == OnClose
  }

  lemma VisibleMore(calls: seq<Call>, c: Call)
    ensures Visible(calls + [c]) == if c == OnConnecting then Visible(calls) else Visible(calls) + [c]
  {
    assert (calls + [c])[..|calls|] == calls;
  }

  lemma ConnectInv(s: State)
    requires s.ws.None? && s.timers == 0 && !s.forcedClose && !s.timedOut && s.readyState == Connecting
      && OnlyLive(s.sockets, None)
    requires Turns(Visible(s.calls)) == Some(false)
    ensures Inv(Connected(s, true))
  {
    VisibleMore(s.calls, OnConnecting);
  }

  lemma StepInv(s: State, e: Event)
    requires Inv(s)
    ensures Inv(Step(s, e))
  {
    hide Visible, Turns;
    if Enabled(s, e) {
      match e
      case Opens(i) => OpensInv(s, i);
      case Closes(i) => ClosesInv(s, i);
      case TimesOut(i) => ShutInv(s, i, s.forcedClose);
      case Reconnects => ConnectInv(s.(timers := s.timers - 1));
      case UserCloses => if s.ws.Some? { ShutInv(s, s.ws.value, true); }
      case UserRefreshes => if s.ws.Some? { ShutInv(s, s.ws.value, s.forcedClose); }
    }
  }

  lemma OpensInv(s: State, i: nat)
    requires Inv(s) && Enabled(s, Opens(i))
    ensures Inv(Step(s, Opens(i)))
  {
    VisibleMore(s.calls, OnOpen);
    TurnsMore(Visible(s.calls), OnOpen);
  }

  lemma ClosesInv(s: State, i: nat)
    requires Inv(s) && Enabled(s, Closes(i))
    ensures Inv(Step(s, Closes(i)))
  {
    hide Visible, Turns;
    VisibleMore(s.calls, OnConnecting);
    VisibleMore(s.calls, OnClose);
    VisibleMore(s.calls + [OnConnecting], OnClose);
    TurnsMore(Visible(s.calls), OnClose);
    assert s.calls + [OnConnecting] + [] == s.calls + [OnConnecting];
  }

  /** Shutting the live socket keeps the invariant; the user may force it. */
  lemma ShutInv(s: State, i: nat, forced: bool)
    requires Inv(s) && s.ws.Some? && i < |s.sockets| && (s.sockets[i].phase != Closed || s.sockets[i].timeout)
      && (s.forcedClose ==> forced)
    ensures s.ws == Some(i)
    ensures Inv(s.(sockets := s.sockets[i := ShutInner(s.sockets[i])], forcedClose := forced))
    ensures Inv(s.(sockets := s.sockets[i := ShutInner(s.sockets[i]).(timeout := false)], forcedClose := forced))
  {
    hide Visible, Turns;
  }

  lemma {:induction false} RunInv(events: seq<Event>)
    ensures Inv(Run(events))
  {
    if events == [] {
      ConnectInv(State([], None, false, false, Connecting, 0, []));
    } else {
      RunInv(events[..|events| - 1]);
      StepInv(Run(events[..|events| - 1]), events[|events| - 1]);
    }
  }

  lemma {:induction false} LiveCount(sockets: seq<Inner>, live: Option<nat>)
    requires OnlyLive(sockets, live)
    ensures Live(sockets) == if live.Some? then 1 else 0
  {
    if sockets != [] {
      var n := |sockets| - 1;
      LiveCount(sockets[..n], if live == Some(n) then None else live);
    }
  }

  /** There is always one inner socket, or one timer that will make one, until the socket is closed for good. */
  lemma OneConnection(events: seq<Event>)
    ensures var s := Run(events); Live(s.sockets) + s.timers == if s.readyState == Closed then 0 else 1
  {
    RunInv(events);
    LiveCount(Run(events).sockets, Run(events).ws);
  }

  /** A closed socket stays as it is. */
  lemma {:induction false} ClosedForGood(events: seq<Event>, more: seq<Event>)
    requires Run(events).readyState == Closed
    ensures Run(events + more) == Run(events)
  {
    hide *;
    if more == [] {
      assert events + more == events;
    } else {
      var n := |more| - 1;
      ClosedForGood(events, more[..n]);
      assert events + more == (events + more[..n]) + [more[n]];
      RunMore(events + more[..n], more[n]);
      RunInv(events);
      ClosedStays(Run(events), more[n]);
    }
  }

  lemma {:induction false} VisibleCalls(calls: seq<Call>)
    ensures forall i :: 0 <= i < |Visible(calls)| ==> Visible(calls)[i] != OnConnecting
  {
    if calls != [] { VisibleCalls(calls[..|calls| - 1]); }
  }

  /**
   * The user sees `onopen` and `onclose` in turn, starting with `onopen`; only the last `onclose` of a socket that
   * the user closed may come without an `onopen` before it.
   */
  lemma HandlersAlternate(events: seq<Event>)
    ensures var s := Run(events); var v := Visible(s.calls);
      if s.readyState == Closed then v != [] && v[|v| - 1] == OnClose && Alternates(v[..|v| - 1]) else Alternates(v)
  {
    hide Turns, Visible, Alternates, OnlyLive;
    var s := Run(events);
    RunInv(events);
    VisibleCalls(s.calls);
    var v := Visible(s.calls);
    TurnsAlternate(v);
    if s.readyState == Closed { TurnsAlternate(v[..|v| - 1]); }
  }

  /** The socket calls itself open exactly from `onopen` to `onclose`, and closed only after the user closed it. */
  lemma StateTold(events: seq<Event>)
    ensures var s := Run(events); var v := Visible(s.calls);
      && (s.readyState == Open <==> v != [] && v[|v| - 1] == OnOpen)
      && (s.readyState == Closed ==> s.forcedClose)
      && s.readyState != Closing
  {
    hide Visible, OnlyLive;
    RunInv(events);
  }

  /** Once the user has closed a connection, all that can still come is one `onclose`. */
  lemma {:induction false} CloseIsFinal(events: seq<Event>, more: seq<Event>)
    requires Run(events).forcedClose
    ensures var s, t := Run(events), Run(events + more);
      t.forcedClose && (Visible(t.calls) == Visible(s.calls)
        || (s.readyState != Closed && t.readyState == Closed && Visible(t.calls) == Visible(s.calls) + [OnClose]))
  {
    hide *;
    if more == [] {
      assert events + more == events;
    } else if Run(events).readyState == Closed {
      ClosedForGood(events, more);
    } else {
      var n := |more| - 1;
      CloseIsFinal(events, more[..n]);
      assert events + more == (events + more[..n]) + [more[n]];
      RunMore(events + more[..n], more[n]);
      RunInv(events + more[..n]);
      ForcedStep(Run(events + more[..n]), more[n]);
    }
  }

  lemma ForcedStep(s: State, e: Event)
    requires Inv(s) && s.forcedClose
    ensures var t := Step(s, e);
      && t.forcedClose
      && (s.readyState == Closed ==> t == s)
      && (Visible(t.calls) == Visible(s.calls)
          || (t.readyState == Closed && Visible(t.calls) == Visible(s.calls) + [OnClose]))
  {
    hide Visible, Turns;
    VisibleMore(s.calls, OnClose);
  }

  lemma ClosedStays(s: State, e: Event)
    requires Inv(s) && s.readyState == Closed
    ensures Step(s, e) == s
  {
  }

  /** Nothing is seen from then on but at most one `onclose`, whatever happens. */
  ghost predicate Final(events: seq<Event>, v: seq<Call>) {
    forall more :: var w := Visible(Run(events + more).calls); w == v || w == v + [OnClose]
  }

  /** `close` closes for good if and only if no reconnection is waiting; while one is, `close` does nothing. */
  lemma CloseTakesEffect(events: seq<Event>)
    ensures Final(events + [UserCloses], Visible(Run(events).calls)) <==> Run(events).timers == 0
    ensures Run(events).timers > 0 ==> Run(events + [UserCloses]) == Run(events)
  {
    hide Visible, Run, Step, Inv, Turns, Alternates;
    if Run(events).timers == 0 {
      forall more
        ensures
          var v, w := Visible(Run(events).calls), Visible(Run(events + [UserCloses] + more).calls);
          w == v || w == v + [OnClose]
      {
        ClosedByUser(events, more);
      }
    } else {
      ReopensAfterClose(events);
      OpensNotFinal(events + [UserCloses], [Reconnects, Opens(|Run(events).sockets|)], Visible(Run(events).calls));
    }
  }

  lemma OpensNotFinal(events: seq<Event>, more: seq<Event>, v: seq<Call>)
    requires Visible(Run(events + more).calls) == v + [OnOpen]
    ensures !Final(events, v)
  {
    hide Visible, Run;
    var w := Visible(Run(events + more).calls);
    assert w[|v|] == OnOpen && (v + [OnClose])[|v|] == OnClose;
    assert w != v && w != v + [OnClose];
  }

  lemma ClosedByUser(events: seq<Event>, more: seq<Event>)
    requires Run(events).timers == 0
    ensures
      var v, w := Visible(Run(events).calls), Visible(Run(events + [UserCloses] + more).calls);
      w == v || w == v + [OnClose]
  {
    RunInv(events);
    RunMore(events, UserCloses);
    hide Visible, Turns, Alternates, OnlyLive, Run;
    if Run(events).readyState == Closed {
      ClosedForGood(events, [UserCloses] + more);
      assert events + ([UserCloses] + more) == events + [UserCloses] + more;
    } else {
      CloseIsFinal(events + [UserCloses], more);
    }
  }

  lemma RunMore(events: seq<Event>, e: Event)
    ensures Run(events + [e]) == Step(Run(events), e)
  {
    assert (events + [e])[..|events|] == events;
  }

  /** A run in which `close` was called in vain: the socket reconnects and opens again. */
  lemma ReopensAfterClose(events: seq<Event>)
    requires Run(events).timers > 0
    ensures var s := Run(events);
      && Run(events + [UserCloses]) == s
      && Visible(Run(events + [UserCloses] + [Reconnects, Opens(|s.sockets|)]).calls) == Visible(s.calls) + [OnOpen]
  {
    hide *;
    var s := Run(events);
    RunInv(events);
    Reopens(s);
    var a := events + [UserCloses];
    RunMore(events, UserCloses);
    RunMore(a, Reconnects);
    RunMore(a + [Reconnects], Opens(|s.sockets|));
    assert a + [Reconnects] + [Opens(|s.sockets|)] == a + [Reconnects, Opens(|s.sockets|)];
    VisibleMore(s.calls, OnConnecting);
    VisibleMore(s.calls + [OnConnecting], OnOpen);
  }

  lemma Reopens(s: State)
    requires Inv(s) && s.timers > 0
    ensures Step(s, UserCloses) == s
    ensures Step(Step(s, Reconnects), Opens(|s.sockets|)).calls == s.calls + [OnConnecting] + [OnOpen]
  {
    hide Visible, Turns, Alternates;
  }

  /** The shortest such run: the first connection is lost, and `close` is called before the second is made. */
  lemma ClosedInVain()
    ensures Run([Closes(0)]).timers == 1 && Run([Closes(0), UserCloses]) == Run([Closes(0)])
    ensures Visible(Run([Closes(0), UserCloses, Reconnects, Opens(1)]).calls) == [OnOpen]
  {
    var lost := [Closes(0)];
    assert [] + lost == lost && lost + [UserCloses] == [Closes(0), UserCloses];
    RunMore([], Closes(0));
    assert Init().calls == [OnConnecting] && Run(lost).calls == [OnConnecting, OnConnecting];
    VisibleMore([], OnConnecting);
    VisibleMore([OnConnecting], OnConnecting);
    ReopensAfterClose(lost);
    assert lost + [UserCloses] + [Reconnects, Opens(1)] == [Closes(0), UserCloses, Reconnects, Opens(1)];
  }

  /** An inner socket that was shut never opens again. */
  ghost predicate Shut(s: State, i: nat) {
    i < |s.sockets| && (s.sockets[i].phase == Closing || s.sockets[i].phase == Closed)
  }

  lemma ShutStays(s: State, e: Event, i: nat)
    requires Shut(s, i)
    ensures Shut(Step(s, e), i)
  {
  }

  lemma {:induction false} StaysShut(events: seq<Event>, more: seq<Event>, i: nat)
    requires Shut(Run(events), i)
    ensures Shut(Run(events + more), i)
    decreases |more|
  {
    hide *;
    if more == [] {
      assert events + more == events;
    } else {
      var n := |more| - 1;
      StaysShut(events, more[..n], i);
      assert events + more == (events + more[..n]) + [more[n]];
      RunMore(events + more[..n], more[n]);
      ShutStays(Run(events + more[..n]), more[n], i);
    }
  }

  /**
   * `refresh` and `close` shut the live connection, and the timeout shuts the one it belongs to: whatever follows,
   * that inner socket is never open again.
   */
  lemma Shuts(events: seq<Event>, e: Event, more: seq<Event>)
    requires Enabled(Run(events), e)
    ensures (e.UserRefreshes? || e.UserCloses?) && Run(events).ws.Some? ==>
              Shut(Run(events + [e] + more), Run(events).ws.value)
    ensures e.TimesOut? ==> Shut(Run(events + [e] + more), e.i)
  {
    RunInv(events);
    RunMore(events, e);
    var s := Run(events);
    hide Run, Visible, Turns;
    if (e.UserRefreshes? || e.UserCloses?) && s.ws.Some? { StaysShut(events + [e], more, s.ws.value); }
    if e.TimesOut? { StaysShut(events + [e], more, e.i); }
  }

  /** A connection is watched by its timeout as long as it connects, and by none afterwards. */
  ghost predicate Watched(s: State) {
    forall i :: 0 <= i < |s.sockets| ==>
      (s.sockets[i].phase == Connecting ==> s.sockets[i].timeout)
      && (s.sockets[i].phase == Open || s.sockets[i].phase == Closed ==> !s.sockets[i].timeout)
  }

  lemma WatchedStep(s: State, e: Event)
    requires Watched(s)
    ensures Watched(Step(s, e))
  {
  }

  lemma {:induction false} TimeoutWatches(events: seq<Event>)
    ensures Watched(Run(events))
  {
    hide Step;
    if events != [] {
      TimeoutWatches(events[..|events| - 1]);
      WatchedStep(Run(events[..|events| - 1]), events[|events| - 1]);
    }
  }

  lemma Unwatched(s: State, e: Event, i: nat)
    requires i < |s.sockets| && (e == TimesOut(i) || !s.sockets[i].timeout)
    ensures i < |Step(s, e).sockets| && !Step(s, e).sockets[i].timeout
  {
  }

  lemma {:induction false} StaysUnwatched(events: seq<Event>, more: seq<Event>, i: nat)
    requires i < |Run(events).sockets| && !Run(events).sockets[i].timeout
    ensures i < |Run(events + more).sockets| && !Run(events + more).sockets[i].timeout
    decreases |more|
  {
    hide *;
    if more == [] {
      assert events + more == events;
    } else {
      var n := |more| - 1;
      StaysUnwatched(events, more[..n], i);
      assert events + more == (events + more[..n]) + [more[n]];
      RunMore(events + more[..n], more[n]);
      Unwatched(Run(events + more[..n]), more[n], i);
    }
  }

  /** A connection times out at most once. */
  lemma TimesOutOnce(events: seq<Event>, more: seq<Event>, i: nat)
    requires Enabled(Run(events), TimesOut(i))
    ensures !Enabled(Run(events + [TimesOut(i)] + more), TimesOut(i))
  {
    RunMore(events, TimesOut(i));
    Unwatched(Run(events), TimesOut(i), i);
    hide Run, Step;
    StaysUnwatched(events + [TimesOut(i)], more, i);
  }

  /** The object and its handlers; what they do is what the machine above does. */
  class ReconnectingWebSocket {
    var sockets: seq<Inner>
    var ws: Option<nat>
    var forcedClose: bool
    var timedOut: bool
    var readyState: Phase
    var timers: nat
    var calls: seq<Call>

    ghost function Now(): State
      reads this
    {
      State(sockets, ws, forcedClose, timedOut, readyState, timers, calls)
    }

    constructor ()
      ensures Now() == Init() && Inv(Now())
    {
      RunInv([]);
      sockets, ws, forcedClose, timedOut, readyState, timers, calls := [], None, false, false, Connecting, 0, [];
      new;
      Connect(true);
    }

    method Connect(attempt: bool)
      modifies this
      ensures Now() == Connected(old(Now()), attempt)
    {
      ws := Some(|sockets|);
      sockets := sockets + [Inner(Connecting, true, attempt)];
      calls := calls + [OnConnecting];
    }

    /** `close` of an inner socket. */
    method Shut(i: nat)
      requires i < |sockets|
      modifies this`sockets
      ensures sockets == old(sockets)[i := ShutInner(old(sockets)[i])]
    {
      if sockets[i].phase != Closed { sockets := sockets[i := sockets[i].(phase := Closing)]; }
    }

    method OnTimeout(i: nat)
      requires Enabled(Now(), TimesOut(i))
      modifies this
      ensures Now() == Step(old(Now()), TimesOut(i))
    {
      sockets := sockets[i := sockets[i].(timeout := false)];
      timedOut := true;
      Shut(i);
      Shut(i);
      Shut(i);
      timedOut := false;
    }

    method OnInnerOpen(i: nat)
      requires Enabled(Now(), Opens(i))
      modifies this
      ensures Now() == Step(old(Now()), Opens(i))
    {
      sockets := sockets[i := sockets[i].(phase := Open, timeout := false)];
      readyState := Open;
      sockets := sockets[i := sockets[i].(attempt := false)];
      calls := calls + [OnOpen];
    }

    method OnInnerClose(i: nat)
      requires Enabled(Now(), Closes(i))
      modifies this
      ensures Now() == Step(old(Now()), Closes(i))
    {
      sockets := sockets[i := sockets[i].(phase := Closed, timeout := false)];
      ws := None;
      if forcedClose {
        readyState := Closed;
        calls := calls + [OnClose];
      } else {
        readyState := Connecting;
        calls := calls + [OnConnecting];
        if !sockets[i].attempt && !timedOut { calls := calls + [OnClose]; }
        timers := timers + 1;
      }
    }

    method OnReconnect()
      requires Enabled(Now(), Reconnects)
      modifies this
      ensures Now() == Step(old(Now()), Reconnects)
    {
      timers := timers - 1;
      Connect(true);
    }

    method Close()
      requires Inv(Now())
      modifies this
      ensures Now() == Step(old(Now()), UserCloses)
    {
      if ws.Some? {
        forcedClose := true;
        Shut(ws.value);
      }
    }

    method Refresh()
      requires Inv(Now())
      modifies this
      ensures Now() == Step(old(Now()), UserRefreshes)
    {
      if ws.Some? { Shut(ws.value); }
    }

    /** Any event of a run keeps the invariant, from which the claims about whole runs follow. */
    method Perform(e: Event)
      requires Inv(Now()) && Enabled(Now(), e)
      modifies this
      ensures Now() == Step(old(Now()), e) && Inv(Now())
    {
      StepInv(Now(), e);
      match e {
        case Opens(i) => OnInnerOpen(i);
        case Closes(i) => OnInnerClose(i);
        case TimesOut(i) => OnTimeout(i);
        case Reconnects => OnReconnect();
        case UserCloses => Close();
        case UserRefreshes => Refresh();
      }
    }
  }
}
