/**
 * jQuery.when: a master Deferred over the positions of an argument list.
 *
 * A subordinate is seen through what it delivers: for each position at most one of its done and fail callbacks,
 * and at most once, during the registration if it has settled before.  The deliveries that come later may come in
 * any order.  That its Deferred does so is proved in `DeliversWhileWaiting`; module Subordinates runs both together.
 */
module Whens {
  import opened Wrappers
  import Deferreds

  /** What has been delivered for one position; a plain value counts as delivered from the start. */
  datatype Fate<V> = Waiting | Done(value: V) | Failed(reason: V)

  /** An argument: a plain value, or a subordinate with its state and its memorised notification. */
  datatype Arg<V> = Plain(v: V) | Sub(fate: Fate<V>, noted: Option<V>)

  /** A cell of `resolveValues`: it starts as a copy of the argument, so a subordinate's cell holds the subordinate. */
  datatype Cell<V> = Subordinate | Value(v: V)

  datatype Master<V> = Unsettled | ResolvedWith(values: seq<Cell<V>>) | RejectedWith(reason: V)

  datatype Event<V> = OnDone(i: nat, v: V) | OnFail(i: nat, v: V) | OnProgress(i: nat, v: V)

  /** The variables of one call, and what has been delivered. */
  datatype State<V> = State(
    remaining: int, values: seq<Cell<V>>, progressValues: seq<Option<V>>,
    master: Master<V>, notified: seq<seq<Option<V>>>,
    fates: seq<Fate<V>>, failures: seq<V>)

  function CopyOf<V>(a: Arg<V>): Cell<V> {
    if a.Plain? then Value(a.v) else Subordinate
  }

  function ResolveMaster<V>(s: State<V>): State<V> {
    if s.master.Unsettled? then s.(master := ResolvedWith(s.values)) else s
  }

  /** A callback registered by `when` is delivered. */
  function Deliver<V>(s: State<V>, e: Event<V>): State<V>
    requires e.i < |s.values| == |s.progressValues| == |s.fates|
  {
    match e
    case OnDone(i, v) =>
      var t := s.(values := s.values[i := Value(v)], remaining := s.remaining - 1, fates := s.fates[i := Done(v)]);
      if t.remaining == 0 then ResolveMaster(t) else t
    case OnFail(i, v) =>
      var t := s.(fates := s.fates[i := Failed(v)], failures := s.failures + [v]);
      if t.master.Unsettled? then t.(master := RejectedWith(v)) else t
    case OnProgress(i, v) =>
      var t := s.(progressValues := s.progressValues[i := Some(v)]);
      if t.master.Unsettled? then t.(notified := t.notified + [t.progressValues]) else t
  }

  /** One turn of the registration loop. */
  function Listen<V>(s: State<V>, i: nat, a: Arg<V>): State<V>
    requires i < |s.values| == |s.progressValues| == |s.fates|
  {
    match a
    case Plain(v) => s.(remaining := s.remaining - 1, fates := s.fates[i := Done(v)])
    case Sub(fate, noted) =>
      var t := Settled(s, i, fate);
      if noted.Some? then Deliver(t, OnProgress(i, noted.value)) else t
  }

  /** What a subordinate that has settled delivers during its registration. */
  function Settled<V>(s: State<V>, i: nat, fate: Fate<V>): (t: State<V>)
    requires i < |s.values| == |s.progressValues| == |s.fates|
    ensures |t.values| == |t.progressValues| == |t.fates| == |s.fates|
  {
    match fate
    case Waiting => s
    case Done(v) => Deliver(s, OnDone(i, v))
    case Failed(v) => Deliver(s, OnFail(i, v))
  }

  function Before<V>(args: seq<Arg<V>>): State<V> {
    State(|args|, seq(|args|, i requires 0 <= i < |args| => CopyOf(args[i])), seq(|args|, _ => None),
          Unsettled, [], seq(|args|, _ => Waiting), [])
  }

  function Listened<V>(args: seq<Arg<V>>, n: nat): (s: State<V>)
    requires n <= |args|
    ensures |s.values| == |s.progressValues| == |s.fates| == |args|
  {
    if n == 0 then Before(args) else Listen(Listened(args, n - 1), n - 1, args[n - 1])
  }

  /** The state when `when` returns, for more or fewer than one argument, or one plain value. */
  function Start<V>(args: seq<Arg<V>>): State<V> {
    if |args| == 1 && args[0].Plain? then
      ResolveMaster(Before(args).(remaining := 0, fates := [Done(args[0].v)]))
    else
      var s := Listened(args, |args|);
      if s.remaining == 0 then ResolveMaster(s) else s
  }

  /** A subordinate delivers done or fail once, and only while neither has been delivered. */
  predicate Enabled<V>(s: State<V>, e: Event<V>) {
    e.i < |s.fates| && (e.OnProgress? || s.fates[e.i].Waiting?)
  }

  /** What a subordinate has delivered to a position whose done callback is `done` and whose fail callback is `fail`. */
  function FateOf<V>(runs: seq<Deferreds.Run<V>>, done: nat, fail: nat): Fate<V> {
    if runs == [] then Waiting
    else
      var r := runs[|runs| - 1];
      if Delivers(r, done, fail) then (if r.which.DoneList? then Done(r.args) else Failed(r.args))
      else FateOf(runs[..|runs| - 1], done, fail)
  }

  predicate Delivers<V>(r: Deferreds.Run<V>, done: nat, fail: nat) {
    (r.which.DoneList? && r.id == done) || (r.which.FailList? && r.id == fail)
  }

  lemma {:induction false} FateDelivered<V>(runs: seq<Deferreds.Run<V>>, done: nat, fail: nat)
    requires !FateOf(runs, done, fail).Waiting?
    ensures exists i :: 0 <= i < |runs| && Delivers(runs[i], done, fail)
  {
    var n := |runs| - 1;
    if !Delivers(runs[n], done, fail) {
      FateDelivered(runs[..n], done, fail);
      var i :| 0 <= i < n && Delivers(runs[..n][i], done, fail);
      assert Delivers(runs[i], done, fail);
    }
  }

  /** A Deferred delivers done or fail to a position only while neither has been, so every delivery is enabled. */
  lemma DeliversWhileWaiting<V>(acts: seq<Deferreds.Action<V>>, k: nat, done: nat, fail: nat)
    ensures
      var d := Deferreds.Exec(acts);
      k < |d.runs| && Delivers(d.runs[k], done, fail)
          && Deferreds.Single(d.doneRegs, done) && Deferreds.Single(d.failRegs, fail) ==>
        FateOf(d.runs[..k], done, fail) == Waiting
  {
    var d := Deferreds.Exec(acts);
    hide Deferreds.Exec, Deferreds.Single, FateOf;
    if k < |d.runs| && Delivers(d.runs[k], done, fail) && Deferreds.Single(d.doneRegs, done)
       && Deferreds.Single(d.failRegs, fail) && FateOf(d.runs[..k], done, fail) != Waiting {
      FateDelivered(d.runs[..k], done, fail);
      var i :| 0 <= i < k && Delivers(d.runs[..k][i], done, fail);
      Deferreds.DeliveredOnce(acts, i, k);
    }
  }

  ghost function Exec<V>(args: seq<Arg<V>>, events: seq<Event<V>>): (s: State<V>)
    requires |args| != 1 || args[0].Plain?
    ensures Inv(args, s)
  {
    if events == [] then StartInv(args); Start(args)
    else
      var s := Exec(args, events[..|events| - 1]);
      var e := events[|events| - 1];
      if Enabled(s, e) then DeliverInv(args, |args|, s, e); Deliver(s, e) else s
  }

  // ---------- the invariant ----------

  /** The positions without a value. */
  ghost function Unresolved<V>(fates: seq<Fate<V>>): nat {
    if fates == [] then 0
    else Unresolved(fates[..|fates| - 1]) + (if fates[|fates| - 1].Done? then 0 else 1)
  }

  ghost predicate AllDone<V>(fates: seq<Fate<V>>) {
    forall i :: 0 <= i < |fates| ==> fates[i].Done?
  }

  ghost predicate ValuesOk<V>(args: seq<Arg<V>>, s: State<V>, n: nat) {
    && |s.values| == |s.progressValues| == |s.fates| == |args| && n <= |args|
    && (forall i :: 0 <= i < n && args[i].Plain? ==> s.fates[i] == Done(args[i].v))
    && (forall i :: n <= i < |args| ==> s.fates[i].Waiting? && s.values[i] == CopyOf(args[i]))
    && (forall i :: 0 <= i < n ==> s.values[i] == if s.fates[i].Done? then Value(s.fates[i].value) else Subordinate)
  }

  ghost predicate MasterOk<V>(s: State<V>) {
    && (s.failures == [] <==> forall i :: 0 <= i < |s.fates| ==> !s.fates[i].Failed?)
    && match s.master
       case Unsettled => s.failures == []
       case ResolvedWith(values) => AllDone(s.fates) && values == s.values
       case RejectedWith(reason) => s.failures != [] && reason == s.failures[0]
  }

  /** The first `n` positions have been listened to. */
  ghost predicate Partial<V>(args: seq<Arg<V>>, n: nat, s: State<V>) {
    ValuesOk(args, s, n) && MasterOk(s) && s.remaining == Unresolved(s.fates)
  }

  ghost predicate Inv<V>(args: seq<Arg<V>>, s: State<V>) {
    Partial(args, |args|, s) && (s.master.Unsettled? ==> s.remaining > 0)
  }

  lemma {:induction false} UnresolvedUpdate<V>(fates: seq<Fate<V>>, i: nat, f: Fate<V>)
    requires i < |fates| && !fates[i].Done?
    ensures Unresolved(fates[i := f]) == Unresolved(fates) - (if f.Done? then 1 else 0)
  {
    var front := fates[..|fates| - 1];
    if i < |front| {
      UnresolvedUpdate(front, i, f);
      assert fates[i := f][..|fates| - 1] == front[i := f];
    } else {
      assert fates[i := f][..|fates| - 1] == front;
    }
  }

  lemma {:induction false} UnresolvedZero<V>(fates: seq<Fate<V>>)
    ensures Unresolved(fates) == 0 <==> AllDone(fates)
  {
    if fates != [] {
      var front := fates[..|fates| - 1];
      UnresolvedZero(front);
      assert forall i :: 0 <= i < |front| ==> fates[i] == front[i];
    }
  }

  lemma {:induction false} DoneInv<V>(args: seq<Arg<V>>, n: nat, s: State<V>, i: nat, v: V)
    requires Partial(args, n, s) && i < n && args[i].Sub? && s.fates[i].Waiting?
    ensures var t := Deliver(s, OnDone(i, v)); Partial(args, n, t) && (t.master.Unsettled? ==> t.remaining != 0)
  {
    var t := Deliver(s, OnDone(i, v));
    UnresolvedZero(t.fates);
    UnresolvedUpdate(s.fates, i, Done(v));
    assert t.fates[i] == Done(v) && forall k :: 0 <= k < |s.fates| && k != i ==> t.fates[k] == s.fates[k];
    hide Unresolved;
  }

  lemma {:induction false} FailInv<V>(args: seq<Arg<V>>, n: nat, s: State<V>, i: nat, v: V)
    requires Partial(args, n, s) && i < n && args[i].Sub? && s.fates[i].Waiting?
    ensures Partial(args, n, Deliver(s, OnFail(i, v)))
  {
    var t := Deliver(s, OnFail(i, v));
    UnresolvedUpdate(s.fates, i, Failed(v));
    assert t.fates[i] == Failed(v) && forall k :: 0 <= k < |s.fates| && k != i ==> t.fates[k] == s.fates[k];
    hide Unresolved;
  }

  /** A delivery for a position that is waiting keeps the count, the values and the master right. */
  lemma {:induction false} DeliverInv<V>(args: seq<Arg<V>>, n: nat, s: State<V>, e: Event<V>)
    requires Partial(args, n, s) && Enabled(s, e)
    requires !e.OnProgress? ==> e.i < n && args[e.i].Sub?
    ensures var t := Deliver(s, e);
      Partial(args, n, t) && (t.master.Unsettled? ==> t.remaining == s.remaining || t.remaining != 0)
  {
    match e
    case OnDone(i, v) => DoneInv(args, n, s, i, v);
    case OnFail(i, v) =>
      FailInv(args, n, s, i, v);
      UnresolvedUpdate(s.fates, i, Failed(v));
    case OnProgress(i, v) =>
  }

  lemma {:induction false} ListenInv<V>(args: seq<Arg<V>>, n: nat, s: State<V>)
    requires n < |args| && Partial(args, n, s)
    ensures Partial(args, n + 1, Listen(s, n, args[n]))
  {
    if args[n].Plain? {
      ListenPlainInv(args, n, s);
    } else {
      assert Partial(args, n + 1, s) && s.fates[n].Waiting? && |s.fates| == |args|;
      hide Partial, Deliver, Settled;
      SettledInv(args, n, s, args[n].fate);
      var t := Settled(s, n, args[n].fate);
      if args[n].noted.Some? { DeliverInv(args, n + 1, t, OnProgress(n, args[n].noted.value)); }
    }
  }

  lemma SettledInv<V>(args: seq<Arg<V>>, n: nat, s: State<V>, fate: Fate<V>)
    requires n < |args| && Partial(args, n + 1, s) && s.fates[n].Waiting? && args[n].Sub?
    ensures Partial(args, n + 1, Settled(s, n, fate))
  {
    match fate
    case Waiting =>
    case Done(v) => DeliverInv(args, n + 1, s, OnDone(n, v));
    case Failed(v) => DeliverInv(args, n + 1, s, OnFail(n, v));
  }

  lemma ListenPlainInv<V>(args: seq<Arg<V>>, n: nat, s: State<V>)
    requires n < |args| && Partial(args, n, s) && args[n].Plain?
    ensures Partial(args, n + 1, Listen(s, n, args[n]))
  {
    hide Unresolved;
    UnresolvedUpdate(s.fates, n, Done(args[n].v));
    var t := Listen(s, n, args[n]);
    assert t.fates[n] == Done(args[n].v) && forall i :: 0 <= i < |args| && i != n ==> t.fates[i] == s.fates[i];
    assert s.fates[n].Waiting? && !AllDone(s.fates) && t.failures == s.failures;
    assert (forall i :: 0 <= i < |s.fates| ==> !s.fates[i].Failed?) <==>
      (forall i :: 0 <= i < |t.fates| ==> !t.fates[i].Failed?);
    assert MasterOk(t);
    assert ValuesOk(args, t, n + 1);
  }

  lemma {:induction false} AllWaiting<V>(n: nat)
    ensures Unresolved(seq(n, _ => Fate<V>.Waiting)) == n
  {
    if n > 0 {
      AllWaiting<V>(n - 1);
      assert seq(n, _ => Fate<V>.Waiting)[..n - 1] == seq(n - 1, _ => Fate<V>.Waiting);
    }
  }

  lemma {:induction false} ListenedInv<V>(args: seq<Arg<V>>, n: nat)
    requires n <= |args|
    ensures Partial(args, n, Listened(args, n))
  {
    hide Listen, Unresolved;
    if n == 0 {
      AllWaiting<V>(|args|);
    } else {
      ListenedInv(args, n - 1);
      ListenInv(args, n - 1, Listened(args, n - 1));
    }
  }

  lemma {:induction false} StartInv<V>(args: seq<Arg<V>>)
    requires |args| != 1 || args[0].Plain?
    ensures Inv(args, Start(args))
  {
    if |args| == 1 {
      assert Start(args).fates[..0] == [];
      UnresolvedZero(Start(args).fates);
    } else {
      ListenedInv(args, |args|);
      UnresolvedZero(Listened(args, |args|).fates);
    }
  }

  // ---------- what every run guarantees ----------

  /**
   * In every run, `remaining` counts the positions without a value, and the master is resolved
   * exactly when every position has one, plain values and subordinates that had settled before
   * included, with each value at its position; it is rejected exactly when a subordinate has failed,
   * with the reason of the first failure delivered; otherwise it is still pending.
   */
  lemma {:induction false} MasterOutcome<V>(args: seq<Arg<V>>, events: seq<Event<V>>)
    requires |args| != 1 || args[0].Plain?
    ensures var s := Exec(args, events);
      && s.remaining == Unresolved(s.fates) && |s.fates| == |args|
      && (s.master.ResolvedWith? <==> AllDone(s.fates))
      && (s.master.ResolvedWith? ==>
            s.master.values == seq(|args|,
                i requires 0 <= i < |args| => if s.fates[i].Done? then Value(s.fates[i].value) else Subordinate))
      && (s.master.RejectedWith? <==> exists i :: 0 <= i < |args| && s.fates[i].Failed?)
      && (s.master.RejectedWith? ==> s.failures != [] && s.master.reason == s.failures[0])
      && (forall i :: 0 <= i < |args| && args[i].Plain? ==> s.fates[i] == Done(args[i].v))
  {
    var s := Exec(args, events);
    UnresolvedZero(s.fates);
  }

  /** Once settled, the master ignores every further delivery. */
  lemma {:induction false} MasterSettlesOnce<V>(args: seq<Arg<V>>, events: seq<Event<V>>, more: seq<Event<V>>)
    requires |args| != 1 || args[0].Plain?
    requires !Exec(args, events).master.Unsettled?
    ensures Exec(args, events + more).master == Exec(args, events).master
    ensures Exec(args, events + more).notified == Exec(args, events).notified
    decreases |more|
  {
    hide *;
    if more == [] {
      assert events + more == events;
    } else {
      var n := |more| - 1;
      MasterSettlesOnce(args, events, more[..n]);
      assert events + more == (events + more[..n]) + [more[n]];
      ExecSettled(args, events + more[..n], more[n]);
    }
  }

  lemma ExecSettled<V>(args: seq<Arg<V>>, events: seq<Event<V>>, e: Event<V>)
    requires |args| != 1 || args[0].Plain?
    requires !Exec(args, events).master.Unsettled?
    ensures Exec(args, events + [e]).master == Exec(args, events).master
    ensures Exec(args, events + [e]).notified == Exec(args, events).notified
  {
    assert (events + [e])[..|events|] == events;
    hide MasterOk, Unresolved;
  }

  // ---------- what the master is notified of ----------

  /** A notification by the subordinate at a position. */
  datatype Note<V> = Note(i: nat, v: V)

  /** The notifications that came while the first positions were listened to: what was memorised there. */
  function FirstNotes<V>(args: seq<Arg<V>>, n: nat): (notes: seq<Note<V>>)
    requires n <= |args|
  {
    if n == 0 then []
    else
      FirstNotes(args, n - 1)
      + if args[n - 1].Sub? && args[n - 1].noted.Some? then [Note(n - 1, args[n - 1].noted.value)] else []
  }

  /** All notifications of a run, in order. */
  function Notes<V>(args: seq<Arg<V>>, events: seq<Event<V>>): (notes: seq<Note<V>>) {
    if events == [] then FirstNotes(args, |args|)
    else
      var e := events[|events| - 1];
      Notes(args, events[..|events| - 1]) + if e.OnProgress? && e.i < |args| then [Note(e.i, e.v)] else []
  }

  /** What a position was last notified with. */
  function Latest<V>(notes: seq<Note<V>>, k: nat): Option<V> {
    if notes == [] then None
    else if notes[|notes| - 1].i == k then Some(notes[|notes| - 1].v)
    else Latest(notes[..|notes| - 1], k)
  }

  ghost predicate Shows<V>(values: seq<Option<V>>, notes: seq<Note<V>>, n: nat) {
    |values| == n && forall k :: 0 <= k < n ==> values[k] == Latest(notes, k)
  }

  /** The master got the first of these notifications, and as long as it is pending, all of them. */
  ghost predicate NotifiedOk<V>(s: State<V>, notes: seq<Note<V>>, n: nat) {
    && Shows(s.progressValues, notes, n)
    && |s.notified| <= |notes| && (s.master.Unsettled? ==> |s.notified| == |notes|)
    && forall j :: 0 <= j < |s.notified| ==> Shows(s.notified[j], notes[..j + 1], n)
  }

  lemma NotifyOk<V>(s: State<V>, notes: seq<Note<V>>, n: nat, i: nat, v: V)
    requires NotifiedOk(s, notes, n) && i < n == |s.values| == |s.fates|
    ensures NotifiedOk(Deliver(s, OnProgress(i, v)), notes + [Note(i, v)], n)
    ensures s.notified <= Deliver(s, OnProgress(i, v)).notified
  {
    var more := notes + [Note(i, v)];
    assert more[..|notes|] == notes && more[..|notes| + 1] == more;
    assert forall m: nat :: m <= |notes| ==> more[..m] == notes[..m];
    hide Latest;
    forall k | 0 <= k < n
      ensures Latest(more, k) == if k == i then Some(v) else Latest(notes, k)
    {
      LatestNext(notes, Note(i, v), k);
    }
  }

  lemma LatestNext<V>(notes: seq<Note<V>>, note: Note<V>, k: nat)
    ensures Latest(notes + [note], k) == if k == note.i then Some(note.v) else Latest(notes, k)
  {
    assert (notes + [note])[..|notes|] == notes;
  }

  lemma OtherOk<V>(s: State<V>, notes: seq<Note<V>>, n: nat, e: Event<V>)
    requires NotifiedOk(s, notes, n) && e.i < n == |s.values| == |s.fates| && !e.OnProgress?
    ensures NotifiedOk(Deliver(s, e), notes, n) && Deliver(s, e).notified == s.notified
  {
    hide Shows;
  }

  lemma {:induction false} ListenedOk<V>(args: seq<Arg<V>>, n: nat)
    requires n <= |args|
    ensures NotifiedOk(Listened(args, n), FirstNotes(args, n), |args|)
  {
    hide NotifiedOk, Deliver;
    if n == 0 {
      BeforeOk(args);
    } else {
      ListenedOk(args, n - 1);
      var s, notes, a := Listened(args, n - 1), FirstNotes(args, n - 1), args[n - 1];
      assert notes + [] == notes;
      match a
      case Plain(v) => PlainOk(s, notes, |args|, n - 1, v);
      case Sub(fate, noted) =>
        match fate {
          case Waiting =>
          case Done(v) => OtherOk(s, notes, |args|, OnDone(n - 1, v));
          case Failed(v) => OtherOk(s, notes, |args|, OnFail(n - 1, v));
        }
        if noted.Some? { NotifyOk(Settled(s, n - 1, fate), notes, |args|, n - 1, noted.value); }
    }
  }

  lemma BeforeOk<V>(args: seq<Arg<V>>)
    ensures NotifiedOk(Before(args), [], |args|)
  {
  }

  lemma PlainOk<V>(s: State<V>, notes: seq<Note<V>>, n: nat, i: nat, v: V)
    requires NotifiedOk(s, notes, n) && i < n == |s.values| == |s.fates|
    ensures NotifiedOk(Listen(s, i, Plain(v)), notes, n)
  {
    hide Shows;
  }

  lemma {:induction false} StartOk<V>(args: seq<Arg<V>>)
    requires |args| != 1 || args[0].Plain?
    ensures NotifiedOk(Start(args), FirstNotes(args, |args|), |args|)
  {
    if |args| == 1 {
      BeforeOk(args);
      assert FirstNotes(args, 1) == FirstNotes(args, 0) == [];
    } else {
      ListenedOk(args, |args|);
    }
    hide Shows, Listened, Before;
  }

  /**
   * In every run the master is notified of every notification of a subordinate, in order, as long as it is pending,
   * and each time of what every position was last notified with.
   */
  lemma {:induction false} MasterNotified<V>(args: seq<Arg<V>>, events: seq<Event<V>>)
    requires |args| != 1 || args[0].Plain?
    ensures var s, notes := Exec(args, events), Notes(args, events);
      && |s.notified| <= |notes| && (s.master.Unsettled? ==> |s.notified| == |notes|)
      && (forall j :: 0 <= j < |s.notified| ==> Shows(s.notified[j], notes[..j + 1], |args|))
      && (events != [] ==> Exec(args, events[..|events| - 1]).notified <= s.notified)
      && NotifiedOk(s, notes, |args|)
  {
    hide NotifiedOk, Deliver, Inv, Latest, Shows;
    if events == [] {
      StartOk(args);
    } else {
      var n, e := |events| - 1, events[|events| - 1];
      MasterNotified(args, events[..n]);
      var s, notes := Exec(args, events[..n]), Notes(args, events[..n]);
      MasterOutcome(args, events[..n]);
      SizesOf(args, s);
      assert notes + [] == notes;
      if Enabled(s, e) {
        if e.OnProgress? { NotifyOk(s, notes, |args|, e.i, e.v); } else { OtherOk(s, notes, |args|, e); }
      }
    }
    NotifiedIs(Exec(args, events), Notes(args, events), |args|);
  }

  lemma SizesOf<V>(args: seq<Arg<V>>, s: State<V>)
    requires Inv(args, s)
    ensures |s.values| == |s.progressValues| == |s.fates| == |args|
  {
  }

  lemma NotifiedIs<V>(s: State<V>, notes: seq<Note<V>>, n: nat)
    requires NotifiedOk(s, notes, n)
    ensures |s.notified| <= |notes| && (s.master.Unsettled? ==> |s.notified| == |notes|)
    ensures forall j :: 0 <= j < |s.notified| ==> Shows(s.notified[j], notes[..j + 1], n)
  {
    hide Shows;
  }

  // ---------- the call itself ----------

  /** The variables that the closures of one call to `when` share. */
  class Call<V> {
    const args: seq<Arg<V>>
    var remaining: int
    var values: seq<Cell<V>>
    var progressValues: seq<Option<V>>
    var master: Master<V>
    var notified: seq<seq<Option<V>>>
    ghost var fates: seq<Fate<V>>
    ghost var failures: seq<V>

    ghost function View(): State<V>
      reads this
    {
      State(remaining, values, progressValues, master, notified, fates, failures)
    }

    /** `when(args)`: the registration loop, then the master is resolved if nothing is waited for. */
    constructor (args: seq<Arg<V>>)
      requires |args| != 1 || args[0].Plain?
      ensures this.args == args && View() == Start(args) && Inv(args, View())
    {
      this.args := args;
      remaining := if |args| != 1 then |args| else 0;
      values := seq(|args|, i requires 0 <= i < |args| => CopyOf(args[i]));
      progressValues := seq(|args|, _ => None);
      master, notified := Unsettled, [];
      fates, failures := seq(|args|, _ => Waiting), [];
      new;
      hide Listen, Inv;
      StartInv(args);
      if |args| > 1 {
        for i := 0 to |args|
          invariant this.args == args && View() == Listened(args, i)
        {
          ListenTo(i);
        }
      } else if |args| == 1 {
        fates := [Done(args[0].v)];
      }
      if remaining == 0 { Resolve(); }
    }

    /** One turn of the registration loop; a subordinate that has settled delivers at once. */
    method ListenTo(i: nat)
      requires i < |args| == |values| == |progressValues| == |fates|
      modifies this
      ensures View() == Listen(old(View()), i, args[i])
    {
      match args[i] {
        case Plain(v) =>
          fates := fates[i := Done(v)];
          remaining := remaining - 1;
        case Sub(fate, noted) =>
          match fate {
            case Waiting =>
            case Done(v) => Update(i, v);
            case Failed(v) => Fail(i, v);
          }
          if noted.Some? { Notify(i, noted.value); }
      }
    }

    method Resolve()
      modifies this
      ensures View() == ResolveMaster(old(View()))
    {
      if master.Unsettled? { master := ResolvedWith(values); }
    }

    /** The done callback of position `i`. */
    method Update(i: nat, v: V)
      requires i < |values| == |progressValues| == |fates|
      modifies this
      ensures View() == Deliver(old(View()), OnDone(i, v))
    {
      fates := fates[i := Done(v)];
      values := values[i := Value(v)];
      remaining := remaining - 1;
      if remaining == 0 { Resolve(); }
    }

    /** The fail callback of position `i`: `reject` of the master. */
    method Fail(i: nat, v: V)
      requires i < |values| == |progressValues| == |fates|
      modifies this
      ensures View() == Deliver(old(View()), OnFail(i, v))
    {
      fates, failures := fates[i := Failed(v)], failures + [v];
      if master.Unsettled? { master := RejectedWith(v); }
    }

    /** The progress callback of position `i`. */
    method Notify(i: nat, v: V)
      requires i < |values| == |progressValues| == |fates|
      modifies this
      ensures View() == Deliver(old(View()), OnProgress(i, v))
    {
      progressValues := progressValues[i := Some(v)];
      if master.Unsettled? { notified := notified + [progressValues]; }
    }
  }
}
