/**
 * d3.timer: an intrusive singly linked queue of timers with a table by callback id.  Callbacks run
 * while the queue is being walked and may register callbacks, their own included.
 */
module Timers {
  import opened Wrappers

  /** A callback function; d3 writes an id on it, 0 standing for none. */
  class Callback {
    var id: nat

    constructor ()
      ensures id == 0
    {
      id := 0;
    }
  }

  class Timer {
    const callback: Callback
    var start: int // `then`
    var delay: int
    var flush: bool
    var next: Timer?

    constructor (callback: Callback, start: int, delay: int, next: Timer?)
      ensures this.callback == callback && this.start == start && this.delay == delay && !flush && this.next == next
    {
      this.callback, this.start, this.delay, this.flush, this.next := callback, start, delay, false, next;
    }

    function Due(): int
      reads this`start, this`delay
    {
      start + delay
    }
  }

  /** What wakes the queue next: an animation frame, a timeout, or nothing. */
  datatype Wake = Frame | Timeout(at: int) | Asleep

  datatype Registration = Registration(callback: Callback, delay: int, start: int)

  /** What a callback does when it is called: what it registers, and whether it asks to be removed. */
  datatype Reaction = Reaction(registers: seq<Registration>, done: bool)

  /** The timers form the list that starts at `head`. */
  ghost predicate Linked(head: Timer?, timers: seq<Timer>)
    reads timers`next
  {
    && (head == if |timers| == 0 then null else timers[0])
    && (forall i {:trigger timers[i].next} :: 0 <= i < |timers| - 1 ==> timers[i].next == timers[i + 1])
    && (|timers| > 0 ==> timers[|timers| - 1].next == null)
  }

  /** No timer stands twice, and no callback has two timers. */
  ghost predicate OnePerCallback(timers: seq<Timer>) {
    forall i, j :: 0 <= i < j < |timers| ==> timers[i] != timers[j] && timers[i].callback != timers[j].callback
  }

  function CallbacksOf(timers: seq<Timer>): set<Callback> {
    set t <- timers :: t.callback
  }

  ghost function Ids(timers: seq<Timer>): (ids: seq<nat>)
    reads CallbacksOf(timers)
    ensures |ids| == |timers| && forall i :: 0 <= i < |timers| ==> ids[i] == timers[i].callback.id
  {
    seq(|timers|, i requires 0 <= i < |timers| reads CallbacksOf(timers) => timers[i].callback.id)
  }

  /** The table holds exactly the timers, each under the id of its callback. */
  ghost predicate Indexed(timers: seq<Timer>, ids: seq<nat>, byId: map<nat, Timer>, lastId: nat)
    requires |ids| == |timers|
  {
    && (forall i :: 0 <= i < |timers| ==> ids[i] in byId && byId[ids[i]] == timers[i])
    && (forall k :: k in byId ==> 0 < k <= lastId && exists i ::
      0 <= i < |timers| && timers[i] == byId[k] && ids[i] == k)
  }

  ghost function Flags(timers: seq<Timer>): (fs: seq<bool>)
    reads timers
    ensures |fs| == |timers| && forall i :: 0 <= i < |timers| ==> fs[i] == timers[i].flush
  {
    seq(|timers|, i requires 0 <= i < |timers| reads timers => timers[i].flush)
  }

  /** After a step: a frame if a timer is due within 24 ms, else a timeout, if there is a timer at all. */
  function NextWake(now: int, due: Option<int>): Wake {
    if due.None? then Asleep else if due.value - now > 24 then Timeout(due.value) else Frame
  }

  /** The callbacks whose timers were called and asked to be removed. */
  ghost function Finished(before: seq<Timer>, called: seq<bool>, script: seq<Reaction>): set<Callback>
    requires |before| == |called| == |script|
  {
    set i | 0 <= i < |before| && called[i] && script[i].done :: before[i].callback
  }

  lemma {:induction false} UnflaggedAppend(a: seq<Timer>, b: seq<Timer>, fa: seq<bool>, fb: seq<bool>)
    requires |a| == |fa| && |b| == |fb|
    ensures Unflagged(a + b, fa + fb) == Unflagged(a, fa) + Unflagged(b, fb)
  {
    if b == [] {
      assert a + b == a && fa + fb == fa;
    } else {
      var n := |b| - 1;
      UnflaggedAppend(a, b[..n], fa, fb[..n]);
      assert (a + b)[..|a| + n] == a + b[..n] && (fa + fb)[..|a| + n] == fa + fb[..n];
    }
  }

  lemma {:induction false} UnflaggedAll(a: seq<Timer>, fa: seq<bool>)
    requires |a| == |fa| && forall i :: 0 <= i < |a| ==> !fa[i]
    ensures Unflagged(a, fa) == a
  {
    if a != [] { UnflaggedAll(a[..|a| - 1], fa[..|a| - 1]); }
  }

  lemma CarriedFlags(now: seq<Timer>, before: seq<Timer>, flags: seq<bool>, plans: seq<Plan>, asks: seq<Registration>)
    requires |before| == |flags| == |plans| && Carried(now, before, flags, plans, asks)
    ensures Grown(before, now) && var k := |now| - |before|;
      now == now[..k] + before && Flags(now) == seq(k, i => false) + flags
  {
    hide PlansAs, CallbacksOf, Registered, Flags, Plans;
    var k := |now| - |before|;
    assert now == now[..k] + now[k..];
    FlagsSplit(Flags(now), flags, k);
  }

  lemma FlagsSplit(fs: seq<bool>, flags: seq<bool>, k: nat)
    requires |fs| == k + |flags| && forall i :: 0 <= i < |fs| ==> fs[i] == if i < k then false else flags[i - k]
    ensures fs == seq(k, i => false) + flags
  {
  }

  /** What a flush will leave of the timers after a walk. */
  lemma Settle(called: seq<bool>, script: seq<Reaction>, now: seq<Timer>, before: seq<Timer>, plans: seq<Plan>,
      asks: seq<Registration>)
      returns (added: seq<Timer>)
    requires |called| == |script| == |before| == |plans| && Carried(now, before, Done(called, script), plans, asks)
    requires OnePerCallback(now)
    ensures Grown(before, now) && added == now[..|now| - |before|]
      && forall t :: t in added ==> t in now && t !in before
    ensures Unflagged(now, Flags(now)) == added + Unflagged(before, Done(called, script))
  {
    hide Unflagged, Carried;
    var k := |now| - |before|;
    CarriedFlags(now, before, Done(called, script), plans, asks);
    added := now[..k];
    var none := seq(k, i => false);
    UnflaggedAppend(added, before, none, Done(called, script));
    UnflaggedAll(added, none);
  }

  /**
   * The callbacks that have a timer after a flush: those that had one before or were registered, except exactly
   * those whose own timer was called and asked to be removed, even if they were registered again.
   */
  lemma StillKept(called: seq<bool>, script: seq<Reaction>, now: seq<Timer>, before: seq<Timer>, plans: seq<Plan>,
      asks: seq<Registration>)
    requires |called| == |script| == |before| == |plans| && Carried(now, before, Done(called, script), plans, asks)
    requires OnePerCallback(now)
    ensures CallbacksOf(Unflagged(now, Flags(now))) == CallbacksOf(before) + Registered(asks) -
      Finished(before, called, script)
  {
    CarriedFlags(now, before, Done(called, script), plans, asks);
    hide Registered, Unflagged, Renewed, Done, Flags, OnePerCallback;
    LeftCallbacks(now, Flags(now), before, called, script);
  }

  lemma LeftCallbacks(now: seq<Timer>, flags: seq<bool>, before: seq<Timer>, called: seq<bool>, script: seq<Reaction>)
    requires |called| == |script| == |before| <= |now| == |flags| && OnePerCallback(now)
    requires var k := |now| - |before|; now == now[..k] + before && flags == seq(k, i => false) + Done(called, script)
    ensures CallbacksOf(Unflagged(now, flags)) == CallbacksOf(now) - Finished(before, called, script)
  {
    hide Unflagged, OnePerCallback, Finished, Done;
    var left := Unflagged(now, flags);
    UnflaggedIn(now, flags);
    forall j | 0 <= j < |now|
      ensures now[j] in left <==> now[j].callback !in Finished(before, called, script)
    {
      LeftAt(now, flags, j);
      FlagFinished(now, flags, before, called, script, j);
    }
    forall t | t in now
      ensures t in left <==> t.callback !in Finished(before, called, script)
    {
      var j :| 0 <= j < |now| && now[j] == t;
    }
    forall t | t in left
      ensures t in now
    {
      var q :| 0 <= q < |left| && left[q] == t;
      UnflaggedFrom(now, flags, q);
    }
  }

  lemma {:induction false} UnflaggedFrom(timers: seq<Timer>, flags: seq<bool>, q: nat)
    requires |timers| == |flags| && q < |Unflagged(timers, flags)|
    ensures Unflagged(timers, flags)[q] in timers
  {
    var n := |timers| - 1;
    var front := Unflagged(timers[..n], flags[..n]);
    if q < |front| {
      UnflaggedFrom(timers[..n], flags[..n], q);
      assert forall t :: t in timers[..n] ==> t in timers;
    } else {
      assert Unflagged(timers, flags)[q] == timers[n];
    }
  }

  lemma LeftAt(now: seq<Timer>, flags: seq<bool>, j: nat)
    requires j < |now| == |flags| && OnePerCallback(now)
    ensures now[j] in Unflagged(now, flags) <==> !flags[j]
  {
    hide Unflagged;
    UnflaggedIn(now, flags);
    var left := Unflagged(now, flags);
    if now[j] in left {
      var q :| 0 <= q < |left| && left[q] == now[j];
    }
  }

  lemma FlagFinished(now: seq<Timer>, flags: seq<bool>, before: seq<Timer>, called: seq<bool>, script: seq<Reaction>,
      j: nat)
    requires j < |now| == |flags| && |called| == |script| == |before| <= |now| && OnePerCallback(now)
    requires var k := |now| - |before|; now == now[..k] + before && flags == seq(k, i => false) + Done(called, script)
    ensures flags[j] <==> now[j].callback in Finished(before, called, script)
  {
    var k := |now| - |before|;
    if j >= k { assert now[j] == before[j - k] && flags[j] == Done(called, script)[j - k]; }
    if now[j].callback in Finished(before, called, script) {
      var i :| 0 <= i < |before| && called[i] && script[i].done && before[i].callback == now[j].callback;
      assert now[k + i] == before[i] && flags[k + i] == Done(called, script)[i];
    }
  }

  /** The timers that are not flagged, in order. */
  ghost function Unflagged(timers: seq<Timer>, flags: seq<bool>): (r: seq<Timer>)
    requires |timers| == |flags|
  {
    if timers == [] then []
    else
      var n := |timers| - 1;
      Unflagged(timers[..n], flags[..n]) + (if flags[n] then [] else [timers[n]])
  }

  lemma {:induction false} UnflaggedIn(timers: seq<Timer>, flags: seq<bool>)
    requires |timers| == |flags|
    ensures var r := Unflagged(timers, flags);
      && (forall k :: 0 <= k < |r| ==> exists i :: 0 <= i < |timers| && timers[i] == r[k] && !flags[i])
      && (forall i :: 0 <= i < |timers| && !flags[i] ==> timers[i] in r)
  {
    var r := Unflagged(timers, flags);
    if timers != [] {
      var n := |timers| - 1;
      var front := Unflagged(timers[..n], flags[..n]);
      UnflaggedIn(timers[..n], flags[..n]);
      forall k | 0 <= k < |r|
        ensures exists i :: 0 <= i < |timers| && timers[i] == r[k] && !flags[i]
      {
        if k < |front| {
          var i :| 0 <= i < n && timers[..n][i] == front[k] && !flags[..n][i];
          assert timers[i] == r[k] && !flags[i];
        } else {
          assert timers[n] == r[k] && !flags[n];
        }
      }
      forall i | 0 <= i < |timers| && !flags[i]
        ensures timers[i] in r
      {
        if i < n { assert timers[..n][i] in front; }
      }
    }
  }

  lemma UnflaggedNext(all: seq<Timer>, flags: seq<bool>, v: nat)
    requires v < |all| == |flags|
    ensures Unflagged(all[..v + 1], flags[..v + 1]) == Unflagged(all[..v], flags[..v]) +
      (if flags[v] then [] else [all[v]])
  {
    assert all[..v + 1][..v] == all[..v] && flags[..v + 1][..v] == flags[..v];
  }

  /** `due` is when the first of the timers is due; there is no such time for an empty queue. */
  ghost predicate Earliest(timers: seq<Timer>, due: Option<int>)
    reads timers`start, timers`delay
  {
    && (due.None? <==> timers == [])
    && (due.Some? ==> (forall i :: 0 <= i < |timers| ==> due.value <= timers[i].Due())
                      && exists i :: 0 <= i < |timers| && timers[i].Due() == due.value)
  }

  /** A new timer under a new id at the front. */
  lemma IndexedPush(timers: seq<Timer>, ids: seq<nat>, byId: map<nat, Timer>, lastId: nat, t: Timer)
    requires |ids| == |timers| && Indexed(timers, ids, byId, lastId)
    ensures Indexed([t] + timers, [lastId + 1] + ids, byId[lastId + 1 := t], lastId + 1)
  {
    var more, table := [t] + timers, byId[lastId + 1 := t];
    forall k | k in table
      ensures exists i :: 0 <= i < |more| && more[i] == table[k] && ([lastId + 1] + ids)[i] == k
    {
      if k == lastId + 1 {
        assert more[0] == table[k];
      } else {
        var i :| 0 <= i < |timers| && timers[i] == byId[k] && ids[i] == k;
        assert more[i + 1] == table[k];
      }
    }
  }

  lemma IndexedLess(timers: seq<Timer>, ids: seq<nat>, byId: map<nat, Timer>, lastId: nat, p: nat)
    requires |ids| == |timers| && Indexed(timers, ids, byId, lastId) && OnePerCallback(timers) && p < |timers|
    ensures forall i :: 0 <= i < |timers| - 1 ==>
      var table := byId - {ids[p]};
      Less(ids, p)[i] in table && table[Less(ids, p)[i]] == Less(timers, p)[i]
  {
    forall i | 0 <= i < |timers| - 1
      ensures Less(ids, p)[i] in byId - {ids[p]} && byId[Less(ids, p)[i]] == Less(timers, p)[i]
    {
      var j := if i < p then i else i + 1;
      assert Less(timers, p)[i] == timers[j] && Less(ids, p)[i] == ids[j] && timers[j] != timers[p];
    }
  }

  /** Taking out the timer at `p` and its entry. */
  lemma IndexedDrop(timers: seq<Timer>, ids: seq<nat>, byId: map<nat, Timer>, lastId: nat, p: nat)
    requires |ids| == |timers| && Indexed(timers, ids, byId, lastId) && OnePerCallback(timers) && p < |timers|
    ensures Indexed(Less(timers, p), Less(ids, p), byId - {ids[p]}, lastId)
  {
    IndexedLess(timers, ids, byId, lastId, p);
    hide OnePerCallback;
    var less, keys, table := Less(timers, p), Less(ids, p), byId - {ids[p]};
    forall k | k in table
      ensures 0 < k <= lastId && exists i :: 0 <= i < |less| && less[i] == table[k] && keys[i] == k
    {
      var i :| 0 <= i < |timers| && timers[i] == byId[k] && ids[i] == k;
      var j := if i < p then i else i - 1;
      assert less[j] == table[k] && keys[j] == k;
    }
  }

  lemma OnePerPush(timers: seq<Timer>, t: Timer)
    requires OnePerCallback(timers) && forall i :: 0 <= i < |timers| ==>
      timers[i] != t && timers[i].callback != t.callback
    ensures OnePerCallback([t] + timers)
  {
  }

  lemma OnePerDrop(timers: seq<Timer>, p: nat)
    requires OnePerCallback(timers) && p < |timers|
    ensures OnePerCallback(Less(timers, p))
  {
  }

  /** Without the element at `p`. */
  function Less<T>(s: seq<T>, p: nat): seq<T>
    requires p < |s|
  {
    s[..p] + s[p + 1..]
  }

  function At(timers: seq<Timer>, i: nat): Timer? {
    if i < |timers| then timers[i] else null
  }

  lemma AtSome(timers: seq<Timer>, i: nat)
    ensures i < |timers| <==> At(timers, i) != null
    ensures i < |timers| ==> At(timers, i) == timers[i]
  {
  }

  lemma Nexts(head: Timer?, timers: seq<Timer>)
    requires Linked(head, timers)
    ensures head == At(timers, 0) && forall i {:trigger timers[i]} :: 0 <= i < |timers| ==>
      timers[i].next == At(timers, i + 1)
  {
  }

  lemma Distinct(timers: seq<Timer>)
    requires OnePerCallback(timers)
    ensures forall i, j :: 0 <= i < j < |timers| ==> timers[i] != timers[j]
  {
  }

  /** The list without the timer at `p`. */
  lemma LinkedDrop(head: Timer?, timers: seq<Timer>, p: nat)
    requires p < |timers| && head == At(timers, if p == 0 then 1 else 0)
    requires forall i {:trigger timers[i]} :: 0 <= i < |timers| ==>
      timers[i].next == At(timers, if i + 1 == p then i + 2 else i + 1)
    ensures Linked(head, Less(timers, p))
  {
    var less := Less(timers, p);
    forall i | 0 <= i < |less|
      ensures less[i].next == At(less, i + 1)
    {
      if i < p { assert less[i] == timers[i]; } else { assert less[i] == timers[i + 1]; }
    }
  }

  lemma NamedDrop(timers: seq<Timer>, ids: seq<nat>, p: nat)
    requires p < |timers| == |ids| && forall i :: 0 <= i < |timers| ==> timers[i].callback.id == ids[i]
    ensures |Less(timers, p)| == |Less(ids, p)| && forall i :: 0 <= i < |Less(ids, p)| ==>
      Less(timers, p)[i].callback.id == Less(ids, p)[i]
  {
  }

  lemma LinkedPush(head: Timer?, timers: seq<Timer>, t: Timer)
    requires Linked(head, timers) && t.next == head
    ensures Linked(t, [t] + timers)
  {
    var more := [t] + timers;
    forall i | 0 <= i < |more| - 1
      ensures more[i].next == more[i + 1]
    {
      if i > 0 { assert more[i] == timers[i - 1] && timers[i - 1].next == timers[i]; }
    }
  }

  /** The callbacks that are registered. */
  function Registered(registers: seq<Registration>): set<Callback> {
    set r <- registers :: r.callback
  }

  /** Whether a timer's callback is called at `now`. */
  predicate Calls(immediate: bool, now: int, p: Plan) {
    if immediate then p.delay == 0 else now - p.start >= p.delay
  }

  ghost function Plans(timers: seq<Timer>): (ps: seq<Plan>)
    reads timers
    ensures |ps| == |timers| && forall i :: 0 <= i < |timers| ==> ps[i] == Plan(timers[i].start, timers[i].delay)
  {
    seq(|timers|, i requires 0 <= i < |timers| reads timers => Plan(timers[i].start, timers[i].delay))
  }

  /** The callbacks that some reaction registers. */
  function Touched(script: seq<Reaction>): set<Callback> {
    set a <- script, c <- Registered(a.registers) :: c
  }

  /** Which timers were called and asked to be removed. */
  function Done(called: seq<bool>, script: seq<Reaction>): (flags: seq<bool>)
    requires |called| == |script|
    ensures |flags| == |called| && forall i :: 0 <= i < |flags| ==> flags[i] == (called[i] && script[i].done)
  {
    seq(|called|, i requires 0 <= i < |called| == |script| => called[i] && script[i].done)
  }

  /** What the callbacks that were called have registered, in order. */
  function Asked(script: seq<Reaction>, called: seq<bool>): seq<Registration>
    requires |called| <= |script|
  {
    if called == [] then []
    else
      var n := |called| - 1;
      Asked(script, called[..n]) + if called[n] then script[n].registers else []
  }

  /** The plan of a callback's timer after these registrations. */
  function Renewed(asks: seq<Registration>, c: Callback, p: Plan): Plan {
    if asks == [] then p
    else
      var r := asks[|asks| - 1];
      if r.callback == c then Plan(r.start, r.delay) else Renewed(asks[..|asks| - 1], c, p)
  }

  /**
   * Which of the first `v` timers are called: those that are due by the plan they have when the loop gets to
   * them, that is by the last registration of their callback by a timer called before, if there is one.
   */
  function Called(immediate: bool, now: int, script: seq<Reaction>, all: seq<Timer>, plans: seq<Plan>,
      v: nat): (called: seq<bool>)
    requires v <= |all| == |plans| == |script|
    ensures |called| == v
  {
    if v == 0 then []
    else
      var before := Called(immediate, now, script, all, plans, v - 1);
      before + [Calls(immediate, now, Renewed(Asked(script, before), all[v - 1].callback, plans[v - 1]))]
  }

  /** None of these registrations is of this callback. */
  ghost predicate Unasked(asks: seq<Registration>, c: Callback) {
    forall k :: 0 <= k < |asks| ==> asks[k].callback != c
  }

  /** The last of these registrations of this callback is the one at `k`. */
  ghost predicate LastAsk(asks: seq<Registration>, c: Callback, k: nat) {
    k < |asks| && asks[k].callback == c && forall j :: k < j < |asks| ==> asks[j].callback != c
  }

  lemma {:induction false} RenewedIs(asks: seq<Registration>, c: Callback, p: Plan)
    ensures Unasked(asks, c) ==> Renewed(asks, c, p) == p
    ensures forall k: nat :: LastAsk(asks, c, k) ==> Renewed(asks, c, p) == Plan(asks[k].start, asks[k].delay)
  {
    if asks != [] {
      var n := |asks| - 1;
      if asks[n].callback != c {
        RenewedIs(asks[..n], c, p);
        assert forall k: nat :: LastAsk(asks, c, k) ==> LastAsk(asks[..n], c, k);
      }
    }
  }

  lemma {:induction false} CalledBefore(immediate: bool, now: int, script: seq<Reaction>, all: seq<Timer>,
      plans: seq<Plan>, i: nat, v: nat)
    requires i <= v <= |all| == |plans| == |script|
    ensures Called(immediate, now, script, all, plans, v)[..i] == Called(immediate, now, script, all, plans, i)
  {
    hide Called;
    if i < v {
      CalledBefore(immediate, now, script, all, plans, i, v - 1);
      CalledLast(immediate, now, script, all, plans, v - 1);
    }
  }

  /**
   * A timer is called exactly if its delay has passed since its start (or, at a flush, if it has no delay), by the
   * last registration of its callback by a timer called before, or else by its own start and delay.
   */
  lemma CalledIf(immediate: bool, now: int, script: seq<Reaction>, all: seq<Timer>, plans: seq<Plan>, i: nat)
    requires i < |all| == |plans| == |script|
    ensures var called, c := Called(immediate, now, script, all, plans, |all|), all[i].callback;
      var asks, p := Asked(script, called[..i]), plans[i];
      && (Unasked(asks, c) ==> (called[i] <==> if immediate then p.delay == 0 else p.start + p.delay <= now))
      && (forall k: nat :: LastAsk(asks, c, k) ==>
            (called[i] <==> if immediate then asks[k].delay == 0 else asks[k].start + asks[k].delay <= now))
  {
    hide Unasked, LastAsk, Renewed, Asked;
    CalledBefore(immediate, now, script, all, plans, i, |all|);
    CalledBefore(immediate, now, script, all, plans, i + 1, |all|);
    CalledLast(immediate, now, script, all, plans, i);
    RenewedIs(Asked(script, Called(immediate, now, script, all, plans, i)), all[i].callback, plans[i]);
  }

  /** Each timer is called exactly if its delay has passed since its start, by what was last registered for it. */
  ghost predicate InTime(now: int, script: seq<Reaction>, all: seq<Timer>, plans: seq<Plan>, called: seq<bool>) {
    && |called| == |script| == |all| == |plans|
    && (forall i :: 0 <= i < |called| && Unasked(Asked(script, called[..i]), all[i].callback) ==>
          (called[i] <==> plans[i].start + plans[i].delay <= now))
    && (forall i, k: nat :: 0 <= i < |called| && LastAsk(Asked(script, called[..i]), all[i].callback, k) ==>
          var r := Asked(script, called[..i])[k]; (called[i] <==> r.start + r.delay <= now))
  }

  /** At a flush, each timer is called exactly if it has no delay. */
  ghost predicate AtOnce(script: seq<Reaction>, all: seq<Timer>, plans: seq<Plan>, called: seq<bool>) {
    && |called| == |script| == |all| == |plans|
    && (forall i :: 0 <= i < |called| && Unasked(Asked(script, called[..i]), all[i].callback) ==>
          (called[i] <==> plans[i].delay == 0))
    && (forall i, k: nat :: 0 <= i < |called| && LastAsk(Asked(script, called[..i]), all[i].callback, k) ==>
          (called[i] <==> Asked(script, called[..i])[k].delay == 0))
  }

  lemma AllCalledIf(immediate: bool, now: int, script: seq<Reaction>, all: seq<Timer>, plans: seq<Plan>)
    requires |all| == |plans| == |script|
    ensures var called := Called(immediate, now, script, all, plans, |all|);
      if immediate then AtOnce(script, all, plans, called) else InTime(now, script, all, plans, called)
  {
    hide Unasked, Called, Asked;
    forall i | 0 <= i < |all|
      ensures var called, c := Called(immediate, now, script, all, plans, |all|), all[i].callback;
        var asks, p := Asked(script, called[..i]), plans[i];
        && (Unasked(asks, c) ==> (called[i] <==> if immediate then p.delay == 0 else p.start + p.delay <= now))
        && (forall k: nat :: LastAsk(asks, c, k) ==>
              (called[i] <==> if immediate then asks[k].delay == 0 else asks[k].start + asks[k].delay <= now))
    {
      CalledIf(immediate, now, script, all, plans, i);
    }
  }

  /** When the queue wakes after a step: at the next frame, when the first timer is due, or never. */
  lemma WakeIs(timers: seq<Timer>, now: int, due: Option<int>)
    requires Earliest(timers, due)
    ensures var wake := NextWake(now, due);
      && (wake.Asleep? <==> timers == [])
      && (wake.Frame? <==> exists i :: 0 <= i < |timers| && timers[i].start + timers[i].delay <= now + 24)
      && (wake.Timeout? ==>
            && (forall i :: 0 <= i < |timers| ==> wake.at <= timers[i].start + timers[i].delay)
            && exists i :: 0 <= i < |timers| && timers[i].start + timers[i].delay == wake.at)
  {
  }

  /**
   * A run in which a callback that is registered again loses its timer: the first timer's callback asks to be
   * removed, and the second timer's callback then registers it anew.
   */
  lemma RegisteredInVain(ta: Timer, tb: Timer, now: int)
    requires ta.callback != tb.callback
    ensures var script := [Reaction([], true), Reaction([Registration(ta.callback, 0, now)], false)];
      var all, plans := [ta, tb], [Plan(now, 0), Plan(now, 0)];
      var called := Called(false, now, script, all, plans, 2);
      && called == [true, true]
      && ta.callback in Registered(Asked(script, called))
      && ta.callback !in CallbacksOf(all) + Registered(Asked(script, called)) - Finished(all, called, script)
  {
    var script := [Reaction([], true), Reaction([Registration(ta.callback, 0, now)], false)];
    var all, plans := [ta, tb], [Plan(now, 0), Plan(now, 0)];
    var one := Called(false, now, script, all, plans, 1);
    assert Called(false, now, script, all, plans, 0) == [];
    assert one == [true];
    assert Asked(script, one) == [] by { assert one[..0] == []; }
    var called := Called(false, now, script, all, plans, 2);
    assert called == [true, true];
    assert called[..1] == one;
    assert Asked(script, called) == [Registration(ta.callback, 0, now)];
    assert all[0].callback == ta.callback && called[0] && script[0].done;
  }

  /** What the loop has done to the first `v` timers. */
  ghost predicate Walked(immediate: bool, now: int, script: seq<Reaction>, all: seq<Timer>, plans: seq<Plan>,
      called: seq<bool>, flags: seq<bool>, v: nat) {
    && |called| == v <= |all| == |flags| == |plans| == |script|
    && (forall i :: 0 <= i < |flags| ==> flags[i] == (i < v && called[i] && script[i].done))
    && called == Called(immediate, now, script, all, plans, v)
  }

  lemma WalkedStart(immediate: bool, now: int, script: seq<Reaction>, all: seq<Timer>, plans: seq<Plan>,
      flags: seq<bool>)
    requires |all| == |flags| == |plans| == |script| && forall i :: 0 <= i < |flags| ==> !flags[i]
    ensures Walked(immediate, now, script, all, plans, [], flags, 0) && Asked(script, []) == []
  {
  }

  lemma UnflaggedAhead(immediate: bool, now: int, script: seq<Reaction>, all: seq<Timer>, plans: seq<Plan>,
      called: seq<bool>, flags: seq<bool>, v: nat)
    requires Walked(immediate, now, script, all, plans, called, flags, v) && v < |all|
    ensures !flags[v] && |called| == v
  {
  }

  lemma WalkedNext(immediate: bool, now: int, script: seq<Reaction>, all: seq<Timer>, plans: seq<Plan>,
      called: seq<bool>, flags: seq<bool>, v: nat, call: bool)
    requires Walked(immediate, now, script, all, plans, called, flags, v) && v < |all|
    requires call == Calls(immediate, now, Renewed(Asked(script, called), all[v].callback, plans[v]))
    ensures Walked(immediate, now, script, all, plans, called + [call], flags[v := call && script[v].done], v + 1)
    ensures Asked(script, called + [call]) == Asked(script, called) + if call then script[v].registers else []
  {
    hide Calls, Renewed, Asked, Called;
    AskedLast(script, called, call);
    CalledLast(immediate, now, script, all, plans, v);
  }

  lemma CalledLast(immediate: bool, now: int, script: seq<Reaction>, all: seq<Timer>, plans: seq<Plan>, v: nat)
    requires v < |all| == |plans| == |script|
    ensures var before := Called(immediate, now, script, all, plans, v);
      Called(immediate, now, script, all, plans, v + 1)
      == before + [Calls(immediate, now, Renewed(Asked(script, before), all[v].callback, plans[v]))]
  {
  }

  lemma AskedLast(script: seq<Reaction>, called: seq<bool>, call: bool)
    requires |called| < |script|
    ensures Asked(script, called + [call]) == Asked(script, called) + if call then script[|called|].registers else []
  {
    assert (called + [call])[..|called|] == called;
  }

  lemma WalkedEnd(immediate: bool, now: int, script: seq<Reaction>, all: seq<Timer>, plans: seq<Plan>,
      called: seq<bool>, flags: seq<bool>)
    requires Walked(immediate, now, script, all, plans, called, flags, |all|)
    ensures |called| == |script| == |all| && flags == Done(called, script)
    ensures called == Called(immediate, now, script, all, plans, |all|)
  {
    hide Called;
  }

  lemma RenewedLast(asks: seq<Registration>, r: Registration, c: Callback, p: Plan)
    ensures Renewed(asks + [r], c, p) == if r.callback == c then Plan(r.start, r.delay) else Renewed(asks, c, p)
  {
    assert (asks + [r])[..|asks|] == asks;
  }

  lemma GrownMore(a: seq<Timer>, b: seq<Timer>, c: seq<Timer>)
    requires Grown(a, b) && Grown(b, c)
    ensures Grown(a, c)
  {
  }

  lemma TouchedAt(script: seq<Reaction>, v: nat)
    requires v < |script|
    ensures Registered(script[v].registers) <= Touched(script)
  {
    assert script[v] in script;
  }

  lemma RegisteredLast(asks: seq<Registration>, r: Registration)
    ensures Registered(asks + [r]) == Registered(asks) + {r.callback}
  {
    var more := asks + [r];
    assert more[|asks|] == r && forall i :: 0 <= i < |asks| ==> more[i] == asks[i];
  }

  /** When a timer is to run: from `start` on, `delay` later. */
  datatype Plan = Plan(start: int, delay: int)

  /**
   * The timers `before` are still there, behind new ones that are not flagged; they carry `flags`.  All timers
   * have the plans that these registrations have left them with, and the callbacks registered have one.
   */
  ghost predicate Carried(now: seq<Timer>, before: seq<Timer>, flags: seq<bool>, plans: seq<Plan>,
      asks: seq<Registration>)
    requires |before| == |flags| == |plans|
    reads now
  {
    CarriedAs(now, Flags(now), Plans(now), before, flags, plans, asks)
  }

  ghost predicate CarriedAs(now: seq<Timer>, fs: seq<bool>, ps: seq<Plan>, before: seq<Timer>, flags: seq<bool>,
      plans: seq<Plan>, asks: seq<Registration>)
    requires |fs| == |ps| == |now| && |before| == |flags| == |plans|
  {
    && Grown(before, now) && CallbacksOf(now) == CallbacksOf(before) + Registered(asks)
    && var k := |now| - |before|;
    && (forall i :: 0 <= i < |now| ==> fs[i] == if i < k then false else flags[i - k])
    && PlansAs(now, ps, plans, asks)
    && (forall i :: 0 <= i < k ==> now[i].callback in Registered(asks))
  }

  /** Each timer has the plan that the last registration of its callback gave it. */
  ghost predicate PlansAs(now: seq<Timer>, ps: seq<Plan>, plans: seq<Plan>, asks: seq<Registration>)
    requires |plans| <= |now| == |ps|
  {
    var k := |now| - |plans|;
    forall i :: 0 <= i < |now| ==>
      ps[i] == Renewed(asks, now[i].callback, if i < k then Plan(0, 0) else plans[i - k])
  }

  /** What a registration makes of the timers, as seen from the outside. */
  ghost predicate Registers(was: seq<Timer>, fs: seq<bool>, ps: seq<Plan>, now: seq<Timer>, fs': seq<bool>,
      ps': seq<Plan>, r: Registration)
    requires |was| == |fs| == |ps| && |now| == |fs'| == |ps'|
  {
    && (if r.callback in CallbacksOf(was) then now == was && fs' == fs
        else now != [] && now[1..] == was && now[0].callback == r.callback && fs' == [false] + fs)
    && (forall i :: 0 <= i < |now| && now[i].callback == r.callback ==> ps'[i] == Plan(r.start, r.delay))
    && (forall i :: 0 <= i < |now| && now[i].callback != r.callback ==>
      |now| - |was| <= i && ps'[i] == ps[i - (|now| - |was|)])
  }

  lemma RegisteredAs(was: seq<Timer>, fs: seq<bool>, ps: seq<Plan>, now: seq<Timer>, fs': seq<bool>, ps': seq<Plan>,
      r: Registration, before: seq<Timer>, flags: seq<bool>, plans: seq<Plan>, asks: seq<Registration>)
    requires |was| == |fs| == |ps| && |now| == |fs'| == |ps'| && Registers(was, fs, ps, now, fs', ps', r)
    requires |before| == |flags| == |plans| && CarriedAs(was, fs, ps, before, flags, plans, asks)
    ensures CarriedAs(now, fs', ps', before, flags, plans, asks + [r])
  {
    hide Registered, CallbacksOf;
    RegisteredLast(asks, r);
    var d, k := |now| - |was|, |now| - |before|;
    assert now[d..] == was;
    AddedCallback(was, now, r);
    PlansRegistered(was, ps, now, ps', r, plans, asks);
    hide PlansAs;
    forall i | 0 <= i < k
      ensures now[i].callback in Registered(asks + [r])
    {
      if i >= d { assert now[i] == was[i - d]; }
    }
  }

  lemma PlansRegistered(was: seq<Timer>, ps: seq<Plan>, now: seq<Timer>, ps': seq<Plan>, r: Registration,
      plans: seq<Plan>, asks: seq<Registration>)
    requires |plans| <= |was| == |ps| <= |now| == |ps'| && PlansAs(was, ps, plans, asks)
    requires var d := |now| - |was|;
      && now[d..] == was
      && (forall i :: 0 <= i < |now| && now[i].callback == r.callback ==> ps'[i] == Plan(r.start, r.delay))
      && (forall i :: 0 <= i < |now| && now[i].callback != r.callback ==> d <= i && ps'[i] == ps[i - d])
    ensures PlansAs(now, ps', plans, asks + [r])
  {
    hide Renewed;
    var d, k := |now| - |was|, |now| - |plans|;
    forall i | 0 <= i < |now|
      ensures ps'[i] == Renewed(asks + [r], now[i].callback, if i < k then Plan(0, 0) else plans[i - k])
    {
      RenewedLast(asks, r, now[i].callback, if i < k then Plan(0, 0) else plans[i - k]);
      if i >= d { assert now[i] == was[i - d]; }
    }
  }

  lemma AddedCallback(was: seq<Timer>, now: seq<Timer>, r: Registration)
    requires if r.callback in CallbacksOf(was) then now == was
      else now != [] && now[1..] == was && now[0].callback == r.callback
    ensures CallbacksOf(now) == CallbacksOf(was) + {r.callback}
  {
    if r.callback !in CallbacksOf(was) { assert now == [now[0]] + was; }
  }

  lemma FlagsSet(now: seq<Timer>, fs: seq<bool>, p: nat, done: bool)
    requires p < |now| == |fs| && now[p].flush == done && forall i :: 0 <= i < |now| && i != p ==> now[i].flush == fs[i]
    ensures Flags(now) == fs[p := done]
  {
  }

  lemma AnsweredAs(now: seq<Timer>, fs: seq<bool>, ps: seq<Plan>, before: seq<Timer>, flags: seq<bool>,
      plans: seq<Plan>, asks: seq<Registration>, v: nat, done: bool)
    requires |fs| == |ps| == |now| && v < |before| == |flags| == |plans|
      && CarriedAs(now, fs, ps, before, flags, plans, asks)
    ensures |before| <= |now| && now[|now| - |before| + v] == before[v]
    ensures CarriedAs(now, fs[|now| - |before| + v := done], ps, before, flags[v := done], plans, asks)
  {
    hide Renewed, Registered;
    var k := |now| - |before|;
    assert now[k..][v] == before[v];
  }

  /** Timers were only added, at the front. */
  ghost predicate Grown(before: seq<Timer>, after: seq<Timer>) {
    |before| <= |after| && after[|after| - |before|..] == before
  }

  class Queue {
    var head: Timer?
    var byId: map<nat, Timer>
    var lastId: nat
    var wake: Wake
    ghost var timers: seq<Timer>

    /** The queue is an acyclic list with one timer per live callback, which the table indexes exactly. */
    ghost predicate Sound()
      reads this`head, this`byId, this`lastId, this`timers, timers`next, CallbacksOf(timers)
    {
      Linked(head, timers) && OnePerCallback(timers) && Indexed(timers, Ids(timers), byId, lastId)
    }

    /** If the queue waits for a timeout, no timer is due before it; it only sleeps when it is empty. */
    ghost predicate Awake()
      reads this`wake, this`timers, timers`start, timers`delay
    {
      && (wake.Asleep? ==> timers == [])
      && (wake.Timeout? ==> forall t :: t in timers ==> wake.at <= t.Due())
    }

    ghost predicate NoneFlagged()
      reads this`timers, timers`flush
    {
      forall t :: t in timers ==> !t.flush
    }

    constructor ()
      ensures Sound() && Awake() && NoneFlagged() && timers == []
    {
      head, byId, lastId, wake, timers := null, map[], 0, Asleep, [];
    }

    /** The timer of a callback, if it has one. */
    ghost predicate Live(c: Callback)
      reads this`timers
    {
      c in CallbacksOf(timers)
    }

    /** `d3.timer(callback, delay, then)`. */
    method Register(c: Callback, delay: int, start: int)
      requires Sound() && Awake()
      modifies this, timers, c
      ensures Sound() && Awake()
      ensures old(Live(c)) ==> timers == old(timers)
      ensures !old(Live(c)) ==>
        |timers| == |old(timers)| + 1 && timers[1..] == old(timers) && fresh(timers[0]) && !timers[0].flush
      ensures Live(c) && (!old(Live(c)) ==> timers[0].callback == c)
      ensures forall t :: t in timers && t.callback == c ==> t.start == start && t.delay == delay
      ensures forall t :: t in old(timers) ==>
        t.flush == old(t.flush) && (t.callback != c ==> t.start == old(t.start) && t.delay == old(t.delay))
    {
      hide Queue.Sound, Linked, Indexed, OnePerCallback;
      TheTimerOf(c);
      if c.id in byId && byId[c.id].callback == c {
        Renew(byId[c.id], delay, start);
      } else {
        Push(c, delay, start);
      }
    }

    /** A callback is live exactly when the table leads from its id back to it. */
    lemma TheTimerOf(c: Callback)
      requires Sound()
      ensures Live(c) <==> c.id in byId && byId[c.id].callback == c
      ensures Live(c) ==> byId[c.id] in timers && forall t :: t in timers && t.callback == c ==> t == byId[c.id]
    {
      if Live(c) {
        var t :| t in timers && t.callback == c;
        var i :| 0 <= i < |timers| && timers[i] == t;
        assert Ids(timers)[i] == c.id;
      }
    }

    /** The branch for a callback that has a timer. */
    method Renew(timer: Timer, delay: int, start: int)
      requires Sound() && timer in timers
      modifies timer`start, timer`delay, this`wake
      ensures Sound() && timer.start == start && timer.delay == delay && wake == Frame
    {
      timer.start, timer.delay := start, delay;
      wake := Frame;
    }

    /** The branch for a callback that has none. */
    method Push(c: Callback, delay: int, start: int)
      requires Sound() && !Live(c)
      modifies this`head, this`byId, this`lastId, this`timers, this`wake, c
      ensures wake == Frame && Sound() && |timers| == |old(timers)| + 1 && timers[1..] == old(timers)
      ensures fresh(timers[0]) && !timers[0].flush && timers[0].callback == c && timers[0].start == start
        && timers[0].delay == delay
    {
      hide Queue.Sound, Linked, Indexed, OnePerCallback;
      wake := Frame;
      var t := new Timer(c, start, delay, head);
      Enqueue(t);
    }

    /** A new timer, whose callback gets a new id, goes to the front. */
    method Enqueue(t: Timer)
      requires Sound() && !Live(t.callback) && t !in timers && t.next == head
      modifies this`head, this`byId, this`lastId, this`timers, t.callback
      ensures Sound() && timers == [t] + old(timers)
    {
      hide *;
      ghost var ids := Ids(timers);
      Parts();
      NotLive(t.callback);
      lastId := lastId + 1;
      t.callback.id := lastId;
      Pushed(timers, ids, t);
      head := t;
      byId := byId[lastId := t];
      timers := [t] + timers;
      Whole([lastId] + ids);
    }

    lemma Parts()
      requires Sound()
      ensures Linked(head, timers) && OnePerCallback(timers) && Indexed(timers, Ids(timers), byId, lastId)
    {
    }

    lemma NotLive(c: Callback)
      requires !Live(c)
      ensures forall i :: 0 <= i < |timers| ==> timers[i].callback != c
    {
      forall i | 0 <= i < |timers|
        ensures timers[i].callback != c
      {
        assert timers[i].callback in CallbacksOf(timers);
      }
    }

    lemma Pushed(before: seq<Timer>, ids: seq<nat>, t: Timer)
      requires |ids| == |before| && lastId > 0 && Indexed(before, ids, byId, lastId - 1)
      requires Linked(head, before) && OnePerCallback(before) && t.next == head
      requires forall i :: 0 <= i < |before| ==> before[i] != t && before[i].callback != t.callback
      ensures Linked(t, [t] + before) && OnePerCallback([t] + before)
      ensures Indexed([t] + before, [lastId] + ids, byId[lastId := t], lastId)
    {
      IndexedPush(before, ids, byId, lastId - 1, t);
      LinkedPush(head, before, t);
      OnePerPush(before, t);
    }

    lemma Whole(ids: seq<nat>)
      requires |ids| == |timers| && forall i :: 0 <= i < |timers| ==> timers[i].callback.id == ids[i]
      requires Linked(head, timers) && OnePerCallback(timers) && Indexed(timers, ids, byId, lastId)
      ensures Sound()
    {
      assert ids == Ids(timers);
    }

    /** The unlinking of one timer in `d3_timer_flush`; `t0` is the timer before it, if there is one. */
    method Unlink(ghost p: nat, t0: Timer?, t1: Timer) returns (next: Timer?)
      requires Sound() && p < |timers| && t1 == timers[p] && (t0 == if p == 0 then null else timers[p - 1])
      modifies this`head, this`byId, this`timers, timers`next
      ensures Sound() && timers == Less(old(timers), p)
      ensures next == At(old(timers), p + 1)
    {
      hide Queue.Sound, Indexed, OnePerCallback, Linked, Less, At;
      ghost var ids, less := Ids(timers), Less(timers, p);
      Parts();
      IndexedDrop(timers, ids, byId, lastId, p);
      OnePerDrop(timers, p);
      Distinct(timers);
      byId := byId - {t1.callback.id};
      next := Cut(p, t0, t1);
      NamedDrop(timers, ids, p);
      timers := less;
      Whole(Less(ids, p));
    }

    method Cut(ghost p: nat, t0: Timer?, t1: Timer) returns (next: Timer?)
      requires Linked(head, timers) && p < |timers| && t1 == timers[p] && (t0 == if p == 0 then null else timers[p - 1])
      requires forall i, j :: 0 <= i < j < |timers| ==> timers[i] != timers[j]
      modifies this`head, timers`next
      ensures Linked(head, Less(timers, p)) && next == At(timers, p + 1)
    {
      hide Linked;
      Nexts(head, timers);
      next := t1.next;
      if t0 != null { t0.next := t1.next; } else { head := t1.next; }
      LinkedDrop(head, timers, p);
    }

    /** `d3_timer_flush`: takes out exactly the flagged timers, and returns when the next one is due. */
    method Flush() returns (due: Option<int>)
      requires Sound()
      modifies this`head, this`byId, this`timers, timers`next
      ensures Sound() && NoneFlagged()
      ensures timers == Unflagged(old(timers), old(Flags(timers))) && Earliest(timers, due)
    {
      hide *;
      ghost var all, flags, dues, v: nat := timers, Flags(timers), Dues(timers), 0;
      var t0: Timer?, t1 := null, head;
      due := None;
      FlushStart(flags, dues);
      while t1 != null
        invariant v <= |all| && Sound() && Flushing(timers, all, flags, v, t0, t1)
        invariant SoFar(flags, dues, v, due)
        invariant |dues| == |all| && Reads(all, flags, dues)
        decreases |all| - v
      {
        FlushingNext(timers, all, flags, v, t0, t1);
        ReadsAt(all, flags, dues, v);
        SoFarNext(flags, dues, v, due);
        ghost var p := |Unflagged(all[..v], flags[..v])|;
        if t1.flush {
          t1 := Unlink(p, t0, t1);
        } else {
          NextOf(p);
          due := Sooner(due, t1.Due());
          t0, t1 := t1, t1.next;
        }
        v := v + 1;
      }
      FlushEnd(all, flags, dues, v, t0, t1, due);
    }

    /** What a running callback does to the queue: it registers callbacks, one after another. */
    method RegisterAll(registers: seq<Registration>, ghost before: seq<Timer>, ghost flags: seq<bool>,
        ghost plans: seq<Plan>, ghost asks: seq<Registration>)
      requires Sound() && Awake() && |before| == |flags| == |plans| && Carried(timers, before, flags, plans, asks)
      modifies this, timers, Registered(registers)
      ensures Sound() && Awake() && Carried(timers, before, flags, plans, asks + registers)
        && Grown(old(timers), timers)
      ensures forall t :: t in timers ==> t in old(timers) || fresh(t)
    {
      hide Queue.Sound, Queue.Awake, Carried, CallbacksOf;
      assert asks + registers[..0] == asks;
      for i := 0 to |registers|
        invariant Sound() && Awake() && Grown(old(timers), timers)
        invariant Carried(timers, before, flags, plans, asks + registers[..i])
        invariant forall t :: t in timers ==> t in old(timers) || fresh(t)
      {
        assert registers[i].callback in Registered(registers);
        assert forall k :: 0 <= k < |timers| ==> timers[k] in old(timers) || fresh(timers[k]);
        RegisterCarried(registers[i], before, flags, plans, asks + registers[..i]);
        assert asks + registers[..i] + [registers[i]] == asks + registers[..i + 1];
      }
      assert registers[..|registers|] == registers;
    }

    method RegisterCarried(r: Registration, ghost before: seq<Timer>, ghost flags: seq<bool>, ghost plans: seq<Plan>,
        ghost asks: seq<Registration>)
      requires Sound() && Awake() && |before| == |flags| == |plans| && Carried(timers, before, flags, plans, asks)
      modifies this, timers, r.callback
      ensures Sound() && Awake() && Carried(timers, before, flags, plans, asks + [r]) && Grown(old(timers), timers)
      ensures forall t :: t in timers ==> t in old(timers) || fresh(t)
    {
      hide Queue.Sound, Queue.Awake, CarriedAs, CallbacksOf;
      ghost var was, fs, ps := timers, Flags(timers), Plans(timers);
      Register(r.callback, r.delay, r.start);
      RegisteredAs(was, fs, ps, timers, Flags(timers), Plans(timers), r, before, flags, plans, asks);
    }

    /**
     * The loop of `d3_timer_step`, and with `immediate` that of `d3.timer.flush`, which calls the timers without
     * delay.  `script` says what each timer's callback does if it is called.
     */
    method Walk(now: int, immediate: bool, script: seq<Reaction>) returns (ghost called: seq<bool>)
      requires Sound() && Awake() && NoneFlagged() && |script| == |timers|
      modifies this, timers, Touched(script)
      ensures Sound() && Awake() && Grown(old(timers), timers) && |called| == |old(timers)|
      ensures forall t :: t in timers ==> t in old(timers) || fresh(t)
      ensures called == Called(immediate, now, script, old(timers), old(Plans(timers)), |script|)
      ensures if immediate then AtOnce(script, old(timers), old(Plans(timers)), called)
        else InTime(now, script, old(timers), old(Plans(timers)), called)
      ensures Carried(timers, old(timers), Done(called, script), old(Plans(timers)), Asked(script, called))
    {
      hide *;
      ghost var all, flags, plans := timers, Flags(timers), Plans(timers);
      called := [];
      var t1, v := head, 0;
      WalkStart(flags, plans);
      WalkedStart(immediate, now, script, all, plans, flags);
      while t1 != null
        invariant Sound() && Awake() && v <= |all| == |flags| == |plans| == |script| && t1 == At(all, v)
          && |called| == v
        invariant Carried(timers, all, flags, plans, Asked(script, called)) && Grown(all, timers)
        invariant forall t :: t in timers ==> t in all || fresh(t)
        invariant Walked(immediate, now, script, all, plans, called, flags, v)
        decreases |all| - v
      {
        AtSome(all, v);
        TouchedAt(script, v);
        UnflaggedAhead(immediate, now, script, all, plans, called, flags, v);
        ghost var call;
        ghost var before := timers;
        assert forall c :: c in Registered(script[v].registers) ==> c in Touched(script);
        assert forall k :: 0 <= k < |timers| ==> timers[k] in old(timers) || fresh(timers[k]);
        t1, call := Visit(t1, now, immediate, script[v], v, all, flags, plans, Asked(script, called));
        GrownMore(all, before, timers);
        WalkedNext(immediate, now, script, all, plans, called, flags, v, call);
        flags := flags[v := call && script[v].done];
        called := called + [call];
        v := v + 1;
      }
      AtSome(all, v);
      WalkedEnd(immediate, now, script, all, plans, called, flags);
      AllCalledIf(immediate, now, script, all, plans);
    }

    /** One turn of that loop. */
    method Visit(t1: Timer, now: int, immediate: bool, reaction: Reaction, ghost v: nat, ghost all: seq<Timer>,
        ghost flags: seq<bool>, ghost plans: seq<Plan>, ghost asks: seq<Registration>)
      returns (next: Timer?, ghost call: bool)
      requires Sound() && Awake() && v < |all| == |flags| == |plans| && t1 == all[v]
      requires Carried(timers, all, flags, plans, asks) && Grown(all, timers) && !flags[v]
      modifies this, timers, Registered(reaction.registers)
      ensures Sound() && Awake() && Grown(old(timers), timers)
        && forall t :: t in timers ==> t in old(timers) || fresh(t)
      ensures call == Calls(immediate, now, Renewed(asks, t1.callback, plans[v]))
      ensures Carried(timers, all, flags[v := call && reaction.done], plans,
        asks + if call then reaction.registers else [])
      ensures next == At(all, v + 1)
    {
      hide Queue.Sound, Queue.Awake, Carried, Registered, CallbacksOf, Calls, At, Renewed;
      PlanAt(v, all, flags, plans, asks);
      call := Calls(immediate, now, Plan(t1.start, t1.delay));
      if Calls(immediate, now, Plan(t1.start, t1.delay)) {
        RegisterAll(reaction.registers, all, flags, plans, asks);
        Answer(t1, reaction.done, v, all, flags, plans, asks + reaction.registers);
      } else {
        assert flags[v := false] == flags && asks + [] == asks;
      }
      NextIn(all, v);
      next := t1.next;
    }

    lemma AfterWalk(called: seq<bool>, script: seq<Reaction>, before: seq<Timer>, plans: seq<Plan>)
        returns (added: seq<Timer>)
      requires Sound() && |called| == |script| == |before| == |plans|
      requires Carried(timers, before, Done(called, script), plans, Asked(script, called))
      ensures forall t :: t in added ==> t in timers && t !in before
      ensures Unflagged(timers, Flags(timers)) == added + Unflagged(before, Done(called, script))
      ensures CallbacksOf(Unflagged(timers, Flags(timers)))
           == CallbacksOf(before) + Registered(Asked(script, called)) - Finished(before, called, script)
    {
      Parts();
      hide *;
      added := Settle(called, script, timers, before, plans, Asked(script, called));
      StillKept(called, script, timers, before, plans, Asked(script, called));
    }

    /** `d3_timer_step`: calls the timers that are due, takes out those that asked for it, and sets the next wake-up. */
    method Step(now: int, script: seq<Reaction>) returns (ghost called: seq<bool>, ghost added: seq<Timer>)
      requires Sound() && Awake() && NoneFlagged() && |script| == |timers|
      modifies this, timers, Touched(script)
      ensures Sound() && Awake() && NoneFlagged()
      ensures called == Called(false, now, script, old(timers), old(Plans(timers)), |script|)
      ensures InTime(now, script, old(timers), old(Plans(timers)), called)
      ensures timers == added + Unflagged(old(timers), Done(called, script)) && forall t :: t in added ==> fresh(t)
      ensures CallbacksOf(timers)
           == CallbacksOf(old(timers)) + Registered(Asked(script, called)) - Finished(old(timers), called, script)
      ensures exists due :: Earliest(timers, due) && wake == NextWake(now, due)
      ensures wake.Asleep? <==> timers == []
      ensures wake.Frame? <==> exists i :: 0 <= i < |timers| && timers[i].start + timers[i].delay <= now + 24
      ensures wake.Timeout? ==>
                && (forall i :: 0 <= i < |timers| ==> wake.at <= timers[i].start + timers[i].delay)
                && exists i :: 0 <= i < |timers| && timers[i].start + timers[i].delay == wake.at
    {
      hide Queue.Sound, Queue.Awake, Queue.NoneFlagged, Carried, Registered, Touched, CallbacksOf, Calls, Unflagged,
          Earliest, Done;
      hide Linked, Indexed, OnePerCallback, Called, Asked, Finished;
      called := Walk(now, false, script);
      hide InTime, AtOnce;
      added := AfterWalk(called, script, old(timers), old(Plans(timers)));
      assert forall k :: 0 <= k < |timers| ==> timers[k] in old(timers) || fresh(timers[k]);
      var due := Flush();
      Rearm(now, due);
      WakeIs(timers, now, due);
    }

    /** `d3.timer.flush`: calls the timers without delay and takes out those that asked for it. */
    method FlushNow(now: int, script: seq<Reaction>) returns (ghost called: seq<bool>, ghost added: seq<Timer>)
      requires Sound() && Awake() && NoneFlagged() && |script| == |timers|
      modifies this, timers, Touched(script)
      ensures Sound() && Awake() && NoneFlagged()
      ensures called == Called(true, now, script, old(timers), old(Plans(timers)), |script|)
      ensures AtOnce(script, old(timers), old(Plans(timers)), called)
      ensures timers == added + Unflagged(old(timers), Done(called, script)) && forall t :: t in added ==> fresh(t)
      ensures CallbacksOf(timers)
           == CallbacksOf(old(timers)) + Registered(Asked(script, called)) - Finished(old(timers), called, script)
    {
      hide Queue.Sound, Queue.Awake, Queue.NoneFlagged, Carried, Registered, Touched, CallbacksOf, Calls, Unflagged,
          Earliest, Done;
      hide Linked, Indexed, OnePerCallback, Called, Asked, Finished;
      called := Walk(now, true, script);
      hide InTime, AtOnce;
      added := AfterWalk(called, script, old(timers), old(Plans(timers)));
      assert forall k :: 0 <= k < |timers| ==> timers[k] in old(timers) || fresh(timers[k]);
      ghost var all, flags := timers, Flags(timers);
      AwakeFor();
      var due := Flush();
      StillAwake(all, flags);
    }

    method Rearm(now: int, due: Option<int>)
      requires Sound() && NoneFlagged() && Earliest(timers, due)
      modifies this`wake
      ensures Sound() && NoneFlagged() && Awake() && Earliest(timers, due) && wake == NextWake(now, due)
    {
      hide Indexed, Linked, OnePerCallback;
      ghost var ids := Ids(timers);
      wake := NextWake(now, due);
      assert Ids(timers) == ids;
    }

    lemma AwakeFor()
      requires Awake()
      ensures wake.Asleep? ==> timers == []
      ensures wake.Timeout? ==> forall i :: 0 <= i < |timers| ==> wake.at <= timers[i].Due()
    {
    }

    lemma StillAwake(all: seq<Timer>, flags: seq<bool>)
      requires |all| == |flags| && timers == Unflagged(all, flags) && (wake.Asleep? ==> all == [])
      requires wake.Timeout? ==> forall i :: 0 <= i < |all| ==> wake.at <= all[i].Due()
      ensures Awake()
    {
      UnflaggedIn(all, flags);
    }

    /** The answer of a callback becomes the flag of its timer. */
    method Answer(t1: Timer, done: bool, ghost v: nat, ghost all: seq<Timer>, ghost flags: seq<bool>,
        ghost plans: seq<Plan>, ghost asks: seq<Registration>)
      requires Sound() && v < |all| == |flags| == |plans| && t1 == all[v] && Carried(timers, all, flags, plans, asks)
      requires Awake()
      modifies t1`flush
      ensures Carried(timers, all, flags[v := done], plans, asks) && Sound() && Awake()
    {
      hide Queue.Sound, Queue.Awake, Linked, Indexed, OnePerCallback, CarriedAs, CallbacksOf, Flags, Plans;
      AnsweredAs(timers, Flags(timers), Plans(timers), all, flags, plans, asks, v, done);
      SetFlag(t1, done, |timers| - |all| + v);
    }

    method SetFlag(t: Timer, done: bool, ghost p: nat)
      requires Sound() && Awake() && p < |timers| && t == timers[p]
      modifies t`flush
      ensures Sound() && Awake() && Flags(timers) == old(Flags(timers))[p := done]
        && Plans(timers) == old(Plans(timers))
    {
      hide Indexed, Linked, OnePerCallback;
      Parts();
      Distinct(timers);
      ghost var ids, fs := Ids(timers), Flags(timers);
      t.flush := done;
      assert Ids(timers) == ids;
      FlagsSet(timers, fs, p, done);
    }

    lemma WalkStart(flags: seq<bool>, plans: seq<Plan>)
      requires Sound() && NoneFlagged() && flags == Flags(timers) && plans == Plans(timers)
      ensures Carried(timers, timers, flags, plans, []) && Grown(timers, timers) && head == At(timers, 0)
        && forall i :: 0 <= i < |flags| ==> !flags[i]
    {
    }

    lemma PlanAt(v: nat, all: seq<Timer>, flags: seq<bool>, plans: seq<Plan>, asks: seq<Registration>)
      requires v < |all| == |flags| == |plans| && Carried(timers, all, flags, plans, asks)
      ensures all[v] in timers && Plan(all[v].start, all[v].delay) == Renewed(asks, all[v].callback, plans[v])
    {
      hide Renewed, Registered;
      assert timers[|timers| - |all| + v] == all[v];
    }

    lemma NextIn(all: seq<Timer>, v: nat)
      requires Sound() && Grown(all, timers) && v < |all|
      ensures all[v].next == At(all, v + 1)
    {
      var k := |timers| - |all|;
      NextOf(k + v);
      assert all[v] == timers[k + v];
      if v + 1 < |all| { assert all[v + 1] == timers[k + v + 1]; }
    }

    lemma FlushStart(flags: seq<bool>, dues: seq<int>)
      requires Sound() && flags == Flags(timers) && dues == Dues(timers)
      ensures Flushing(timers, timers, flags, 0, null, head) && Reads(timers, flags, dues)
        && SoFar(flags, dues, 0, None)
    {
    }

    lemma FlushEnd(all: seq<Timer>, flags: seq<bool>, dues: seq<int>, v: nat, t0: Timer?, t1: Timer?, due: Option<int>)
      requires Flushing(timers, all, flags, v, t0, t1) && t1 == null && |all| == |flags| == |dues|
      requires SoFar(flags, dues, v, due) && Reads(all, flags, dues)
      ensures timers == Unflagged(all, flags) && NoneFlagged() && Earliest(timers, due)
    {
      assert all[..v] == all && flags[..v] == flags && all[v..] == [];
      UnflaggedIn(all, flags);
    }

    lemma NextOf(p: nat)
      requires Sound() && p < |timers|
      ensures timers[p].next == At(timers, p + 1)
    {
    }
  }

  ghost function Dues(timers: seq<Timer>): (ds: seq<int>)
    reads timers
    ensures |ds| == |timers| && forall i :: 0 <= i < |timers| ==> ds[i] == timers[i].Due()
  {
    seq(|timers|, i requires 0 <= i < |timers| reads timers => timers[i].Due())
  }

  ghost predicate Reads(all: seq<Timer>, flags: seq<bool>, dues: seq<int>)
    requires |all| == |flags| == |dues|
    reads all`flush, all`start, all`delay
  {
    forall i :: 0 <= i < |all| ==> all[i].flush == flags[i] && all[i].Due() == dues[i]
  }

  lemma ReadsAt(all: seq<Timer>, flags: seq<bool>, dues: seq<int>, v: nat)
    requires |all| == |flags| == |dues| && Reads(all, flags, dues) && v < |all|
    ensures all[v].flush == flags[v] && all[v].Due() == dues[v]
  {
  }

  /** `due` is the least due time among the first `v` timers that are not flagged. */
  ghost predicate SoFar(flags: seq<bool>, dues: seq<int>, v: nat, due: Option<int>) {
    && v <= |flags| == |dues|
    && (forall i :: 0 <= i < v && !flags[i] ==> due.Some? && due.value <= dues[i])
    && (due.Some? ==> exists i :: 0 <= i < v && !flags[i] && dues[i] == due.value)
  }

  function Sooner(a: Option<int>, b: int): Option<int> {
    if a.Some? && a.value <= b then a else Some(b)
  }

  lemma SoFarNext(flags: seq<bool>, dues: seq<int>, v: nat, due: Option<int>)
    requires SoFar(flags, dues, v, due) && v < |flags|
    ensures SoFar(flags, dues, v + 1, if flags[v] then due else Sooner(due, dues[v]))
  {
    var next := if flags[v] then due else Sooner(due, dues[v]);
    if next.Some? {
      if next == due {
        var i :| 0 <= i < v && !flags[i] && dues[i] == due.value;
        assert !flags[i] && dues[i] == next.value;
      } else {
        assert !flags[v] && dues[v] == next.value;
      }
    }
  }

  /** `d3_timer_flush` has passed the first `v` of all the timers; `now` are those still linked. */
  ghost predicate Flushing(now: seq<Timer>, all: seq<Timer>, flags: seq<bool>, v: nat, t0: Timer?, t1: Timer?) {
    && v <= |all| == |flags|
    && var kept := Unflagged(all[..v], flags[..v]);
    && now == kept + all[v..]
    && t1 == (if v < |all| then all[v] else null)
    && t0 == (if |kept| == 0 then null else kept[|kept| - 1])
    && forall i :: 0 <= i < |now| ==> now[i] in all
  }

  /** What the loop finds, and what it leaves, at the next timer. */
  lemma FlushingNext(now: seq<Timer>, all: seq<Timer>, flags: seq<bool>, v: nat, t0: Timer?, t1: Timer?)
    requires Flushing(now, all, flags, v, t0, t1) && t1 != null
    ensures v < |all| && t1 == all[v]
    ensures var p := |Unflagged(all[..v], flags[..v])|;
      && p < |now| && now[p] == t1 && (t0 == if p == 0 then null else now[p - 1])
      && (forall i :: 0 <= i < |now| ==> now[i] in all)
      && (flags[v] ==> Flushing(Less(now, p), all, flags, v + 1, t0, At(now, p + 1)))
      && (!flags[v] ==> Flushing(now, all, flags, v + 1, t1, At(now, p + 1)))
  {
    UnflaggedNext(all, flags, v);
    var p := |Unflagged(all[..v], flags[..v])|;
    hide Unflagged;
    assert Less(now, p) == Unflagged(all[..v], flags[..v]) + all[v + 1..];
  }
}
