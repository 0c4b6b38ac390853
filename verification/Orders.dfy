/**
 * scc.order: at most one request waits for each provider, a new one replaces it, and a lost connection cancels
 * them all.  The tables of the console are proved to say what the history of calls says.
 */
module Orders {
  import opened Wrappers

  datatype Request = Request(provider: string, body: string)

  /** What has happened so far; `callback` stands for the function the caller gave, if any. */
  datatype Event =
    | Ordered(request: Request, callback: Option<nat>)
    | Reset(provider: string)
    | Sent(request: Request)
    | Answered(provider: string)
    | Lost

  /** What a callback may do while it runs. */
  datatype Act = Ask(request: Request, callback: Option<nat>) | Drop(provider: string)

  function Events(acts: seq<Act>): (events: seq<Event>)
    ensures |events| == |acts|
  {
    seq(|acts|, i requires 0 <= i < |acts| =>
      match acts[i]
      case Ask(r, callback) => Ordered(r, callback)
      case Drop(p) => Reset(p))
  }

  /** The request that waits for a provider. */
  function Waiting(history: seq<Event>, p: string): Option<Request> {
    if history == [] then None
    else
      var before := Waiting(history[..|history| - 1], p);
      match history[|history| - 1]
      case Ordered(r, _) => if r.provider == p then Some(r) else before
      case Reset(q) => if q == p then None else before
      case Sent(r) => if r.provider == p then None else before
      case Answered(_) => before
      case Lost => None
  }

  /** The callback for the next reply of a provider; a lost connection does not cancel it. */
  function Awaited(history: seq<Event>, p: string): Option<nat> {
    if history == [] then None
    else
      var before := Awaited(history[..|history| - 1], p);
      match history[|history| - 1]
      case Ordered(r, callback) => if r.provider == p then callback else before
      case Reset(q) => if q == p then None else before
      case Sent(_) => before
      case Answered(q) => if q == p then None else before
      case Lost => before
  }

  lemma Next(history: seq<Event>, e: Event)
    ensures (history + [e])[..|history|] == history && (history + [e])[|history|] == e
  {
  }

  /** What a reset and an order do to every provider. */
  lemma NextTold(history: seq<Event>, e: Event)
    ensures e.Reset? ==> forall p ::
      && Waiting(history + [e], p) == (if e.provider == p then None else Waiting(history, p))
      && Awaited(history + [e], p) == (if e.provider == p then None else Awaited(history, p))
    ensures e.Ordered? ==> forall p ::
      && Waiting(history + [e], p) == (if e.request.provider == p then Some(e.request) else Waiting(history, p))
      && Awaited(history + [e], p) == (if e.request.provider == p then e.callback else Awaited(history, p))
  {
    Next(history, e);
  }

  /** Resetting a provider before an order for it makes no difference. */
  lemma Replaces(history: seq<Event>, r: Request, callback: Option<nat>, p: string)
    ensures var after, reset := history + [Ordered(r, callback)], history + [Reset(r.provider)];
      && Waiting(after, p) == Waiting(reset + [Ordered(r, callback)], p)
      && Awaited(after, p) == Awaited(reset + [Ordered(r, callback)], p)
      && Waiting(after, p) == (if p == r.provider then Some(r) else Waiting(history, p))
      && Awaited(after, p) == (if p == r.provider then callback else Awaited(history, p))
  {
    Next(history, Ordered(r, callback));
    Next(history, Reset(r.provider));
    Next(history + [Reset(r.provider)], Ordered(r, callback));
  }

  /** An act of a callback that orders from a provider, or drops its orders. */
  predicate Concerns(act: Act, p: string) {
    match act
    case Ask(r, _) => r.provider == p
    case Drop(q) => q == p
  }

  /** The last thing these acts do about a provider is to order from it with a callback. */
  ghost predicate LeavesCallback(acts: seq<Act>, p: string) {
    exists k :: 0 <= k < |acts| && Concerns(acts[k], p) && acts[k].Ask? && acts[k].callback.Some?
                && forall j :: k < j < |acts| ==> !Concerns(acts[j], p)
  }

  lemma EventsNext(acts: seq<Act>, n: nat)
    requires n < |acts|
    ensures Events(acts[..n + 1]) == Events(acts[..n]) + [Events(acts)[n]]
  {
  }

  /** What is awaited after these acts, where nothing was before them. */
  lemma {:induction false} AwaitedAfter(history: seq<Event>, acts: seq<Act>, p: string)
    requires Awaited(history, p).None?
    ensures Awaited(history + Events(acts), p).Some? <==> LeavesCallback(acts, p)
  {
    if acts == [] {
      assert history + Events(acts) == history;
    } else {
      var n := |acts| - 1;
      var front := acts[..n];
      AwaitedAfter(history, front, p);
      EventsNext(acts, n);
      assert acts[..n + 1] == acts;
      Next(history + Events(front), Events(acts)[n]);
      assert history + Events(acts) == history + Events(front) + [Events(acts)[n]];
      if Concerns(acts[n], p) {
        assert LeavesCallback(acts, p) <==> acts[n].Ask? && acts[n].callback.Some?;
      } else {
        LeavesFront(acts, p);
      }
    }
  }

  lemma LeavesFront(acts: seq<Act>, p: string)
    requires acts != [] && !Concerns(acts[|acts| - 1], p)
    ensures LeavesCallback(acts, p) <==> LeavesCallback(acts[..|acts| - 1], p)
  {
    var n := |acts| - 1;
    var front := acts[..n];
    if LeavesCallback(front, p) {
      var k :| 0 <= k < n && Concerns(front[k], p) && front[k].Ask? && front[k].callback.Some?
               && forall j :: k < j < n ==> !Concerns(front[j], p);
      assert Concerns(acts[k], p) && forall j :: k < j < |acts| ==> !Concerns(acts[j], p) by {
        forall j | k < j < |acts| ensures !Concerns(acts[j], p) { if j < n { assert front[j] == acts[j]; } }
      }
    }
    if LeavesCallback(acts, p) {
      var k :| 0 <= k < |acts| && Concerns(acts[k], p) && acts[k].Ask? && acts[k].callback.Some?
               && forall j :: k < j < |acts| ==> !Concerns(acts[j], p);
      assert front[k] == acts[k] && forall j :: k < j < n ==> !Concerns(front[j], p);
    }
  }

  /**
   * A callback that is called is deleted after it has run, and with it what it ordered for its provider itself:
   * what is awaited then is what it would be if it were deleted first, if and only if the last thing the
   * callback did about its provider was not to order from it with a callback.
   */
  lemma CallbackSurvives(history: seq<Event>, acts: seq<Act>, p: string)
    ensures var after, meant := history + Events(acts) + [Answered(p)], history + [Answered(p)] + Events(acts);
      Awaited(after, p) == Awaited(meant, p) <==> !LeavesCallback(acts, p)
  {
    Next(history, Answered(p));
    Next(history + Events(acts), Answered(p));
    AwaitedAfter(history + [Answered(p)], acts, p);
  }

  /** A callback that orders again from its provider, with a callback that will not be called. */
  lemma OrderedInVain(history: seq<Event>, r: Request)
    ensures var acts := [Ask(r, Some(1))];
      && Awaited(history + Events(acts), r.provider) == Some(1)
      && Awaited(history + Events(acts) + [Answered(r.provider)], r.provider) == None
      && Waiting(history + Events(acts) + [Answered(r.provider)], r.provider) == Some(r)
  {
    var acts := [Ask(r, Some(1))];
    Next(history, Ordered(r, Some(1)));
    assert Events(acts) == [Ordered(r, Some(1))];
    Next(history + Events(acts), Answered(r.provider));
  }

  function RequestIn(orders: map<string, nat>, pending: map<nat, Request>, p: string): Option<Request> {
    if p in orders && orders[p] in pending then Some(pending[orders[p]]) else None
  }

  function CallbackIn(callbacks: map<string, nat>, p: string): Option<nat> {
    if p in callbacks then Some(callbacks[p]) else None
  }

  /** Every timer that can still fire is the one in the table. */
  ghost predicate TimersOk(orders: map<string, nat>, pending: map<nat, Request>, handle: nat) {
    && (forall h :: h in pending ==> h <= handle && pending[h].provider in orders && orders[pending[h].provider] == h)
    && (forall p :: p in orders ==> 0 < orders[p] <= handle)
    && (forall p :: p in orders && orders[p] in pending ==> pending[orders[p]].provider == p)
  }

  ghost predicate WaitingOk(orders: map<string, nat>, pending: map<nat, Request>, history: seq<Event>) {
    forall p :: RequestIn(orders, pending, p) == Waiting(history, p)
  }

  ghost predicate AwaitedOk(callbacks: map<string, nat>, history: seq<Event>) {
    forall p :: CallbackIn(callbacks, p) == Awaited(history, p)
  }

  lemma ResetKeeps(orders: map<string, nat>, pending: map<nat, Request>, handle: nat, history: seq<Event>, p: string)
    requires TimersOk(orders, pending, handle) && WaitingOk(orders, pending, history)
    ensures var left := if p in orders then pending - {orders[p]} else pending;
      TimersOk(orders - {p}, left, handle) && WaitingOk(orders - {p}, left, history + [Reset(p)])
  {
    hide Waiting, Awaited;
    NextTold(history, Reset(p));
  }

  lemma PutKeeps(orders: map<string, nat>, pending: map<nat, Request>, handle: nat, history: seq<Event>, r: Request,
      callback: Option<nat>)
    requires TimersOk(orders, pending, handle) && WaitingOk(orders, pending, history) && r.provider !in orders
    ensures var id, h := r.provider, handle + 1;
      && TimersOk(orders[id := h], pending[h := r], h)
      && WaitingOk(orders[id := h], pending[h := r], history + [Ordered(r, callback)])
  {
    hide Waiting, Awaited;
    NextTold(history, Ordered(r, callback));
  }

  lemma CallbackKeeps(callbacks: map<string, nat>, history: seq<Event>, r: Request, callback: Option<nat>)
    requires AwaitedOk(callbacks, history)
    ensures AwaitedOk(callbacks - {r.provider}, history + [Reset(r.provider)])
    ensures AwaitedOk(if callback.Some? then callbacks[r.provider := callback.value] else callbacks - {r.provider},
              history + [Ordered(r, callback)])
  {
    hide Waiting, Awaited;
    NextTold(history, Reset(r.provider));
    NextTold(history, Ordered(r, callback));
  }

  class Console {
    var orders: map<string, nat> // the handles of the timers, which may have fired
    var callbacks: map<string, nat>
    var pending: map<nat, Request> // the timers of the browser
    var handle: nat
    ghost var history: seq<Event>

    function Found(p: string): Option<Request>
      reads this
    {
      RequestIn(orders, pending, p)
    }

    function Callback(p: string): Option<nat>
      reads this
    {
      CallbackIn(callbacks, p)
    }

    /** The tables agree with each other and with the history. */
    ghost predicate Valid()
      reads this
    {
      TimersOk(orders, pending, handle) && WaitingOk(orders, pending, history) && AwaitedOk(callbacks, history)
    }

    constructor ()
      ensures Valid() && history == []
    {
      orders, callbacks, pending, handle, history := map[], map[], map[], 0, [];
    }

    /** `scc.resetOrders`. */
    method ResetOrders(provider: string)
      requires Valid()
      modifies this
      ensures Valid() && history == old(history) + [Reset(provider)] && provider !in orders
      ensures Waiting(history, provider) == None && Awaited(history, provider) == None
      ensures forall p :: p != provider ==>
                Waiting(history, p) == old(Waiting(history, p)) && Awaited(history, p) == old(Awaited(history, p))
    {
      hide TimersOk, WaitingOk, AwaitedOk;
      NextTold(history, Reset(provider));
      ResetKeeps(orders, pending, handle, history, provider);
      CallbackKeeps(callbacks, history, Request(provider, ""), None);
      if provider in orders { pending := pending - {orders[provider]}; }
      orders := orders - {provider};
      callbacks := callbacks - {provider};
      history := history + [Reset(provider)];
    }

    /** `scc.order`. */
    method Order(request: Request, callback: Option<nat>)
      requires Valid()
      modifies this
      ensures Valid() && history == old(history) + [Ordered(request, callback)]
      ensures Waiting(history, request.provider) == Some(request) && Awaited(history, request.provider) == callback
      ensures forall p :: p != request.provider ==>
                Waiting(history, p) == old(Waiting(history, p)) && Awaited(history, p) == old(Awaited(history, p))
    {
      ghost var before := history;
      if request.provider in orders { ResetOrders(request.provider); }
      Put(request, callback);
      forall p
        ensures Waiting(before + [Ordered(request, callback)], p) == Waiting(history, p)
        ensures Awaited(before + [Ordered(request, callback)], p) == Awaited(history, p)
        ensures p != request.provider ==>
          Waiting(history, p) == Waiting(before, p) && Awaited(history, p) == Awaited(before, p)
      {
        Replaces(before, request, callback, p);
      }
      history := before + [Ordered(request, callback)];
    }

    method Put(request: Request, callback: Option<nat>)
      requires Valid() && request.provider !in orders
      modifies this
      ensures Valid() && history == old(history) + [Ordered(request, callback)]
    {
      var id := request.provider;
      hide TimersOk, WaitingOk, AwaitedOk;
      PutKeeps(orders, pending, handle, history, request, callback);
      CallbackKeeps(callbacks, history, request, callback);
      callbacks := if callback.Some? then callbacks[id := callback.value] else callbacks - {id};
      handle := handle + 1;
      pending := pending[handle := request];
      orders := orders[id := handle];
      history := history + [Ordered(request, callback)];
    }

    /** A timer fires: what is sent is the last request for its provider that was not cancelled. */
    method Fire(h: nat) returns (sent: Request)
      requires Valid() && h in pending
      modifies this
      ensures Valid() && history == old(history) + [Sent(sent)]
      ensures old(Waiting(history, sent.provider)) == Some(sent) && Waiting(history, sent.provider) == None
      ensures forall p :: p != sent.provider ==> Waiting(history, p) == old(Waiting(history, p))
      ensures forall p :: Awaited(history, p) == old(Awaited(history, p))
    {
      sent := pending[h];
      assert Found(sent.provider) == Some(sent);
      Next(history, Sent(sent));
      pending := pending - {h};
      history := history + [Sent(sent)];
    }

    /** What a callback does while it runs. */
    method Perform(acts: seq<Act>)
      requires Valid()
      modifies this
      ensures Valid() && history == old(history) + Events(acts)
    {
      for i := 0 to |acts|
        invariant Valid() && history == old(history) + Events(acts[..i])
      {
        EventsNext(acts, i);
        match acts[i] {
          case Ask(request, callback) => Order(request, callback);
          case Drop(provider) => ResetOrders(provider);
        }
      }
      assert acts[..|acts|] == acts;
    }

    /** A message arrives: its callback, if there is one, is called, does `acts`, and is deleted only then. */
    method Receive(provider: string, acts: seq<Act>) returns (called: Option<nat>)
      requires Valid()
      modifies this
      ensures Valid() && called == old(Awaited(history, provider))
      ensures history == old(history) + if called.Some? then Events(acts) + [Answered(provider)] else []
      ensures called.Some? ==>
                (Awaited(history, provider) == Awaited(old(history) + [Answered(provider)] + Events(acts), provider)
                 <==> !LeavesCallback(acts, provider))
    {
      called := Callback(provider);
      if called.Some? {
        Perform(acts);
        Next(history, Answered(provider));
        callbacks := callbacks - {provider};
        history := history + [Answered(provider)];
        CallbackSurvives(old(history), acts, provider);
        assert history == old(history) + Events(acts) + [Answered(provider)];
      }
    }

    /** `onclose` cancels every order. */
    method Close()
      requires Valid()
      modifies this
      ensures Valid() && history == old(history) + [Lost] && forall p :: Waiting(history, p) == None
      ensures forall p :: Awaited(history, p) == old(Awaited(history, p))
      ensures pending == map[] && orders == map[]
    {
      Next(history, Lost);
      var ids := orders.Keys;
      while ids != {}
        invariant ids <= orders.Keys
        invariant forall h :: h in pending ==>
          h in old(pending) && pending[h] == old(pending)[h] && pending[h].provider in ids
        modifies this`pending
      {
        var id :| id in ids;
        pending := pending - {orders[id]};
        ids := ids - {id};
      }
      assert pending == map[];
      orders := map[];
      history := history + [Lost];
    }
  }
}
