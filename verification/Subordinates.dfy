/**
 * jQuery.when together with the Deferreds it is given: the calls of `when` on its subordinates, and whatever
 * else is done to them, in any order and at any depth of running callbacks.
 */
module Subordinates {
  import opened Wrappers
  import Deferreds
  import Whens

  /** An argument of `when`: a plain value, or one of the Deferreds, which may be given more than once. */
  datatype Given<V> = Plain(v: V) | Subordinate(k: nat)

  /**
   * What has been done to each Deferred, the variables of the call, and how far its registration loop has come:
   * it has listened to `heard` arguments, and to the next one on the first `part` of its three lists.
   */
  datatype World<V> = World(
    acts: seq<seq<Deferreds.Action<V>>>, call: Whens.State<V>, heard: nat, part: nat, ended: bool)

  /** Something done to a Deferred, the next call of the registration loop, or the end of the call of `when`. */
  datatype Move<V> = Act(k: nat, a: Deferreds.Action<V>) | Listen | End

  function Args<V>(given: seq<Given<V>>): (args: seq<Whens.Arg<V>>)
    ensures |args| == |given|
  {
    seq(|given|, i requires 0 <= i < |given| =>
      if given[i].Plain? then Whens.Plain(given[i].v) else Whens.Sub(Whens.Waiting, None))
  }

  ghost function The<V>(w: World<V>, k: nat): Deferreds.Deferred<V>
    requires k < |w.acts|
  {
    Deferreds.Exec(w.acts[k])
  }

  function Lists(part: nat): Deferreds.Which {
    if part == 0 then Deferreds.DoneList else if part == 1 then Deferreds.FailList else Deferreds.ProgressList
  }

  // ---------- steps ----------

  /** The registration loop goes on to the next list, or the next position. */
  function Onward<V>(w: World<V>): World<V> {
    if w.part == 2 then w.(heard := w.heard + 1, part := 0) else w.(part := w.part + 1)
  }

  function Registration<V>(w: World<V>): Deferreds.Action<V> {
    Deferreds.Register(Lists(w.part), [w.heard])
  }

  /** All arguments that are not plain are among the Deferreds; one Deferred alone would be its own master. */
  predicate Valid<V>(given: seq<Given<V>>, m: nat) {
    |given| != 1 && forall i :: 0 <= i < |given| && given[i].Subordinate? ==> given[i].k < m
  }

  /** A callback of `when` runs, with its own number; other callbacks have greater ones. */
  function Heard<V>(s: Whens.State<V>, r: Deferreds.Run<V>): Whens.State<V>
    requires |s.values| == |s.progressValues| == |s.fates|
  {
    if r.id >= |s.fates| then s
    else
      match r.which
      case DoneList => Whens.Deliver(s, Whens.OnDone(r.id, r.args))
      case FailList => Whens.Deliver(s, Whens.OnFail(r.id, r.args))
      case ProgressList => Whens.Deliver(s, Whens.OnProgress(r.id, r.args))
  }

  /** Something done to a Deferred, and what `when` hears of it. */
  ghost function Acted<V>(w: World<V>, k: nat, a: Deferreds.Action<V>): World<V>
    requires k < |w.acts| && |w.call.values| == |w.call.progressValues| == |w.call.fates|
  {
    var more := w.acts[k] + [a];
    var runs := Deferreds.Exec(more).runs;
    w.(acts := w.acts[k := more],
       call := if |runs| > |The(w, k).runs| then Heard(w.call, runs[|runs| - 1]) else w.call)
  }

  ghost predicate Enabled<V>(given: seq<Given<V>>, w: World<V>, m: Move<V>) {
    match m
    case Act(k, a) =>
      && k < |w.acts| && Deferreds.Enabled(The(w, k), a)
      && (a.Register? ==> forall x :: x in a.ids ==> x >= |given|)
    case Listen =>
      && w.heard < |given|
      && (given[w.heard].Subordinate? ==>
            given[w.heard].k < |w.acts| && Deferreds.UserTurn(The(w, given[w.heard].k)))
    case End => w.heard == |given| && !w.ended
  }

  ghost function Step<V>(given: seq<Given<V>>, w: World<V>, m: Move<V>): World<V>
    requires Inv(given, w) && Enabled(given, w, m)
  {
    match m
    case Act(k, a) => Acted(w, k, a)
    case Listen =>
      (match given[w.heard]
       case Plain(v) => w.(call := Whens.Listen(w.call, w.heard, Whens.Plain(v)), heard := w.heard + 1)
       case Subordinate(k) => Onward(Acted(w, k, Registration(w))))
    case End => w.(call := if w.call.remaining == 0 then Whens.ResolveMaster(w.call) else w.call, ended := true)
  }

  ghost function New<V>(given: seq<Given<V>>, m: nat): World<V> {
    World(seq(m, _ => []), Whens.Before(Args(given)), 0, 0, false)
  }

  /** The world after these moves; a move that is not enabled is passed over. */
  ghost function Exec<V>(given: seq<Given<V>>, m: nat, moves: seq<Move<V>>): (w: World<V>)
    requires Valid(given, m)
    ensures Inv(given, w) && |w.acts| == m
  {
    if moves == [] then NewInv(given, m); New(given, m)
    else
      var w := Exec(given, m, moves[..|moves| - 1]);
      var move := moves[|moves| - 1];
      if Enabled(given, w, move) then StepInv(given, w, move); Step(given, w, move) else w
  }

  // ---------- the invariant ----------

  /** How many arguments `when` has listened to on this list. */
  function Count<V>(w: World<V>, which: Deferreds.Which): nat {
    w.heard + match which
      case DoneList => if w.part >= 1 then 1 else 0
      case FailList => if w.part >= 2 then 1 else 0
      case ProgressList => 0
  }

  /** Of the numbers of `when`, those of the Deferred's positions listened to are registered, each once. */
  ghost predicate Noted<V>(given: seq<Given<V>>, k: nat, regs: seq<nat>, count: nat) {
    forall x: nat :: x < |given| ==>
      (x in regs <==> x < count && given[x] == Subordinate(k)) && Deferreds.Single(regs, x)
  }

  ghost predicate NotedAt<V>(given: seq<Given<V>>, w: World<V>, k: nat)
    requires k < |w.acts|
  {
    && Noted(given, k, The(w, k).doneRegs, Count(w, Deferreds.DoneList))
    && Noted(given, k, The(w, k).failRegs, Count(w, Deferreds.FailList))
  }

  /** What has been delivered for a position is what its Deferred has run. */
  ghost predicate Delivered<V>(given: seq<Given<V>>, k: nat, fates: seq<Whens.Fate<V>>, runs: seq<Deferreds.Run<V>>) {
    forall i :: 0 <= i < |given| && i < |fates| && given[i] == Subordinate(k) ==> fates[i] == Whens.FateOf(runs, i, i)
  }

  /** The first reason was given for a position that has failed. */
  ghost predicate Blamed<V>(s: Whens.State<V>) {
    s.failures != [] ==> exists i :: 0 <= i < |s.fates| && s.fates[i] == Whens.Failed(s.failures[0])
  }

  /** As long as the master is not settled there is something to wait for. */
  predicate Waits<V>(s: Whens.State<V>) {
    s.master.Unsettled? ==> s.remaining > 0
  }

  /** What the call of `when` knows of the first `n` positions fits what the Deferreds have done. */
  ghost predicate Told<V>(given: seq<Given<V>>, w: World<V>, n: nat) {
    && Whens.Partial(Args(given), n, w.call) && Blamed(w.call)
    && (forall k :: 0 <= k < |w.acts| ==> Delivered(given, k, w.call.fates, The(w, k).runs))
  }

  /** How far the call has come. */
  ghost predicate Placed<V>(given: seq<Given<V>>, w: World<V>) {
    && w.heard <= |given| && w.part <= 2
    && (w.part > 0 ==> w.heard < |given| && given[w.heard].Subordinate?)
    && (w.ended ==> w.heard == |given| && Waits(w.call))
  }

  ghost predicate Inv<V>(given: seq<Given<V>>, w: World<V>) {
    && Valid(given, |w.acts|) && Placed(given, w)
    && Told(given, w, Count(w, Deferreds.DoneList))
    && (forall k :: 0 <= k < |w.acts| ==> NotedAt(given, w, k))
  }

  lemma NewInv<V>(given: seq<Given<V>>, m: nat)
    requires Valid(given, m)
    ensures Inv(given, New(given, m))
  {
    hide Inv, Told, NotedAt;
    NewTold(given, m);
    forall k | 0 <= k < m
      ensures NotedAt(given, New(given, m), k)
    {
      NewNoted(given, m, k);
    }
    Whole(given, New(given, m));
  }

  lemma NewNoted<V>(given: seq<Given<V>>, m: nat, k: nat)
    requires k < m
    ensures NotedAt(given, New(given, m), k)
  {
    NoneYet<V>();
    var w := New(given, m);
    hide Deferreds.Exec;
    assert The(w, k).doneRegs == [] && The(w, k).failRegs == [];
  }

  lemma NoneYet<V>()
    ensures Deferreds.Exec<V>([]).doneRegs == [] && Deferreds.Exec<V>([]).failRegs == []
  {
    hide Deferreds.Inv;
  }

  lemma NewTold<V>(given: seq<Given<V>>, m: nat)
    ensures Told(given, New(given, m), 0)
  {
    hide Whens.Partial;
    Whens.ListenedInv(Args(given), 0);
  }

  // ---------- every move keeps it ----------

  lemma SingleMore(regs: seq<nat>, ids: seq<nat>, x: nat)
    requires Deferreds.Single(regs, x) && (x !in ids || (x !in regs && |ids| == 1))
    ensures Deferreds.Single(regs + ids, x)
  {
    var all := regs + ids;
    forall i, j | 0 <= i < j < |all|
      ensures !(all[i] == x == all[j])
    {
      if j < |regs| { assert !(regs[i] == x == regs[j]); }
      if i < |regs| <= j { assert all[i] == regs[i] && all[j] == ids[j - |regs|]; }
    }
  }

  /** What others register, and what `when` does. */
  lemma NotedMore<V>(given: seq<Given<V>>, k: nat, regs: seq<nat>, count: nat, ids: seq<nat>)
    requires Noted(given, k, regs, count)
    ensures (forall x :: x in ids ==> x >= |given|) ==> Noted(given, k, regs + ids, count)
    ensures count < |given| && given[count] == Subordinate(k) && ids == [count] ==>
              Noted(given, k, regs + ids, count + 1)
  {
    hide Deferreds.Single;
    if (forall x :: x in ids ==> x >= |given|) || ids == [count] {
      forall x: nat | x < |given|
        ensures Deferreds.Single(regs + ids, x)
      {
        SingleMore(regs, ids, x);
      }
    }
  }

  lemma NotedOther<V>(given: seq<Given<V>>, k: nat, regs: seq<nat>, count: nat)
    requires Noted(given, k, regs, count) && count < |given| && given[count] != Subordinate(k)
    ensures Noted(given, k, regs, count + 1)
  {
  }

  lemma FateMore<V>(runs: seq<Deferreds.Run<V>>, r: Deferreds.Run<V>, x: nat)
    ensures Whens.FateOf(runs + [r], x, x) ==
      if !Whens.Delivers(r, x, x) then Whens.FateOf(runs, x, x)
      else if r.which.DoneList? then Whens.Done(r.args) else Whens.Failed(r.args)
  {
    assert (runs + [r])[..|runs|] == runs;
  }

  /** The master's side of one delivery. */
  lemma HeardPartial<V>(given: seq<Given<V>>, s: Whens.State<V>, n: nat, r: Deferreds.Run<V>)
    requires Whens.Partial(Args(given), n, s) && Blamed(s)
    requires r.id < |given| && !r.which.ProgressList? ==>
      r.id < n && given[r.id].Subordinate? && s.fates[r.id].Waiting?
    ensures Whens.Partial(Args(given), n, Heard(s, r))
    ensures Waits(s) ==> Waits(Heard(s, r))
  {
    hide Whens.Unresolved;
    if r.id < |s.fates| {
      var args := Args(given);
      match r.which
      case DoneList => Whens.DeliverInv(args, n, s, Whens.OnDone(r.id, r.args));
      case FailList => Whens.DeliverInv(args, n, s, Whens.OnFail(r.id, r.args));
      case ProgressList => Whens.DeliverInv(args, n, s, Whens.OnProgress(r.id, r.args));
    }
  }

  /** The side of the positions. */
  lemma HeardFates<V>(given: seq<Given<V>>, s: Whens.State<V>, runs: seq<Deferreds.Run<V>>, r: Deferreds.Run<V>, k: nat)
    requires |s.values| == |s.progressValues| == |s.fates| == |given| && Blamed(s) && Delivered(given, k, s.fates, runs)
    requires r.id < |given| && !r.which.ProgressList? ==> given[r.id] == Subordinate(k) && s.fates[r.id].Waiting?
    ensures Blamed(Heard(s, r)) && Delivered(given, k, Heard(s, r).fates, runs + [r])
    ensures forall j, other | j != k && Delivered(given, j, s.fates, other) ::
              Delivered(given, j, Heard(s, r).fates, other)
  {
    var t := Heard(s, r);
    FatesHeard(s, r);
    hide Whens.FateOf, Whens.Deliver, Heard;
    forall i | 0 <= i < |given| && given[i] == Subordinate(k)
      ensures t.fates[i] == Whens.FateOf(runs + [r], i, i)
    {
      FateMore(runs, r, i);
    }
    if s.failures != [] {
      var i :| 0 <= i < |s.fates| && s.fates[i] == Whens.Failed(s.failures[0]);
      assert t.fates[i] == Whens.Failed(t.failures[0]);
    } else if t.failures != [] {
      assert t.fates[r.id] == Whens.Failed(t.failures[0]);
    }
  }

  lemma FatesHeard<V>(s: Whens.State<V>, r: Deferreds.Run<V>)
    requires |s.values| == |s.progressValues| == |s.fates|
    ensures var t := Heard(s, r);
      if r.id >= |s.fates| || r.which.ProgressList? then t.fates == s.fates && t.failures == s.failures
      else if r.which.DoneList? then t.fates == s.fates[r.id := Whens.Done(r.args)] && t.failures == s.failures
      else t.fates == s.fates[r.id := Whens.Failed(r.args)] && t.failures == s.failures + [r.args]
  {
  }

  lemma ToldMore<V>(given: seq<Given<V>>, w: World<V>, n: nat, k: nat, a: Deferreds.Action<V>, done: nat, fail: nat)
    requires Told(given, w, n) && k < |w.acts| && Deferreds.Enabled(The(w, k), a) && done <= n && fail <= n
    requires var d := Deferreds.Exec(w.acts[k] + [a]);
      Noted(given, k, d.doneRegs, done) && Noted(given, k, d.failRegs, fail)
    requires |w.call.values| == |w.call.progressValues| == |w.call.fates| == |given|
    ensures Told(given, Acted(w, k, a), n)
    ensures Waits(w.call) ==> Waits(Acted(w, k, a).call)
  {
    hide *;
    var more := w.acts[k] + [a];
    var before, runs := The(w, k).runs, Deferreds.Exec(more).runs;
    ActedRuns(w, k, a);
    ToldParts(given, w, n);
    var call := Acted(w, k, a).call;
    if |runs| > |before| {
      var r := runs[|before|];
      assert runs == before + [r];
      WaitingYet(given, w, n, k, more, done, fail);
      HeardPartial(given, w.call, n, r);
      HeardFates(given, w.call, before, r, k);
      ToldAgain(given, w, n, k, more, call);
    } else {
      assert runs == before;
      ToldAgain(given, w, n, k, more, call);
    }
  }

  lemma ActedRuns<V>(w: World<V>, k: nat, a: Deferreds.Action<V>)
    requires k < |w.acts| && |w.call.values| == |w.call.progressValues| == |w.call.fates|
    requires Deferreds.Enabled(The(w, k), a)
    ensures var more := w.acts[k] + [a];
      var before, runs := The(w, k).runs, Deferreds.Exec(more).runs;
      && before <= runs && |runs| <= |before| + 1
      && Acted(w, k, a) == w.(acts := w.acts[k := more], call := Acted(w, k, a).call)
      && Acted(w, k, a).call == (if |runs| > |before| then Heard(w.call, runs[|before|]) else w.call)
  {
    hide Deferreds.Exec, Deferreds.Enabled, Heard;
    Deferreds.ExecMore(w.acts[k], a);
  }

  lemma ToldParts<V>(given: seq<Given<V>>, w: World<V>, n: nat)
    requires Told(given, w, n)
    ensures Whens.Partial(Args(given), n, w.call) && Blamed(w.call)
    ensures forall k :: 0 <= k < |w.acts| ==> Delivered(given, k, w.call.fates, The(w, k).runs)
  {
    hide Whens.Partial, Blamed, Delivered, The;
  }

  lemma ToldAgain<V>(given: seq<Given<V>>, w: World<V>, n: nat, k: nat, more: seq<Deferreds.Action<V>>,
      call: Whens.State<V>)
    requires k < |w.acts| && Whens.Partial(Args(given), n, call) && Blamed(call)
    requires forall j :: 0 <= j < |w.acts| ==> Delivered(given, j, w.call.fates, The(w, j).runs)
    requires Delivered(given, k, call.fates, Deferreds.Exec(more).runs)
    requires forall j, other | j != k && Delivered(given, j, w.call.fates, other) ::
               Delivered(given, j, call.fates, other)
    ensures Told(given, w.(acts := w.acts[k := more], call := call), n)
  {
    hide Whens.Partial, Blamed, Delivered, Deferreds.Exec;
    var t := w.(acts := w.acts[k := more], call := call);
    forall j | 0 <= j < |t.acts|
      ensures Delivered(given, j, t.call.fates, The(t, j).runs)
    {
      if j != k { assert Delivered(given, j, w.call.fates, The(w, j).runs) && The(t, j) == The(w, j); }
    }
  }

  /** A callback of `when` that runs belongs to a position of its Deferred that is waiting. */
  lemma WaitingYet<V>(given: seq<Given<V>>, w: World<V>, n: nat, k: nat, more: seq<Deferreds.Action<V>>,
      done: nat, fail: nat)
    requires Told(given, w, n) && k < |w.acts| && done <= n && fail <= n
    requires var before, d := The(w, k).runs, Deferreds.Exec(more);
      && Noted(given, k, d.doneRegs, done) && Noted(given, k, d.failRegs, fail)
      && |d.runs| == |before| + 1 && before <= d.runs
    ensures var r := Deferreds.Exec(more).runs[|The(w, k).runs|];
      r.id < |given| && !r.which.ProgressList? ==>
        r.id < n && given[r.id] == Subordinate(k) && r.id < |w.call.fates| && w.call.fates[r.id].Waiting?
  {
    hide Deferreds.Exec;
    var d, at := Deferreds.Exec(more), |The(w, k).runs|;
    var r := d.runs[at];
    if r.id < |given| && !r.which.ProgressList? {
      Deferreds.RunRegistered(more, at);
      Whens.DeliversWhileWaiting(more, at, r.id, r.id);
      assert d.runs[..at] == The(w, k).runs;
    }
  }

  /** What an action registers on `done` and `fail`, as far as it is of `which`. */
  function Ids<V>(a: Deferreds.Action<V>, which: Deferreds.Which): seq<nat> {
    if a.Register? && a.which == which then a.ids else []
  }

  lemma ActedRegs<V>(w: World<V>, k: nat, a: Deferreds.Action<V>, j: nat)
    requires k < |w.acts| && j < |w.acts| && Deferreds.Enabled(The(w, k), a)
    requires |w.call.values| == |w.call.progressValues| == |w.call.fates|
    ensures j < |Acted(w, k, a).acts|
    ensures var d, e := The(w, j), The(Acted(w, k, a), j);
      && (j != k ==> e == d)
      && (j == k ==> e.doneRegs == d.doneRegs + Ids(a, Deferreds.DoneList))
      && (j == k ==> e.failRegs == d.failRegs + Ids(a, Deferreds.FailList))
  {
    hide Deferreds.Exec, Deferreds.Enabled, Heard;
    Deferreds.ExecMore(w.acts[k], a);
  }

  /** What others register leaves the registrations of `when` as they are. */
  lemma NotedStill<V>(given: seq<Given<V>>, w: World<V>, k: nat, a: Deferreds.Action<V>, j: nat)
    requires k < |w.acts| && j < |w.acts| && Deferreds.Enabled(The(w, k), a) && NotedAt(given, w, j)
    requires |w.call.values| == |w.call.progressValues| == |w.call.fates|
    requires a.Register? ==> forall x :: x in a.ids ==> x >= |given|
    ensures j < |Acted(w, k, a).acts| && NotedAt(given, Acted(w, k, a), j)
  {
    hide *;
    var t := Acted(w, k, a);
    ActedRuns(w, k, a);
    ActedRegs(w, k, a, j);
    NotedLists(given, w, j);
    CountsSame(w, t.acts, t.call);
    OthersIds(a, |given|);
    NotedMore(given, j, The(w, j).doneRegs, Count(w, Deferreds.DoneList), Ids(a, Deferreds.DoneList));
    NotedMore(given, j, The(w, j).failRegs, Count(w, Deferreds.FailList), Ids(a, Deferreds.FailList));
    NotedFold(given, t, j);
  }

  lemma CountsSame<V>(w: World<V>, acts: seq<seq<Deferreds.Action<V>>>, call: Whens.State<V>)
    ensures forall which :: Count(w.(acts := acts, call := call), which) == Count(w, which)
  {
  }

  lemma OthersIds<V>(a: Deferreds.Action<V>, n: nat)
    requires a.Register? ==> forall x :: x in a.ids ==> x >= n
    ensures forall which, x | x in Ids(a, which) :: x >= n
  {
  }

  lemma Parts<V>(given: seq<Given<V>>, w: World<V>)
    requires Inv(given, w)
    ensures |w.call.values| == |w.call.progressValues| == |w.call.fates| == |given| && Valid(given, |w.acts|)
    ensures Placed(given, w) && Told(given, w, Count(w, Deferreds.DoneList))
    ensures forall k :: 0 <= k < |w.acts| ==> NotedAt(given, w, k)
  {
  }

  /** Whatever is done to the Deferreds. */
  lemma ActInv<V>(given: seq<Given<V>>, w: World<V>, k: nat, a: Deferreds.Action<V>)
    requires Inv(given, w) && k < |w.acts| && Deferreds.Enabled(The(w, k), a)
    requires a.Register? ==> forall x :: x in a.ids ==> x >= |given|
    ensures |w.call.values| == |w.call.progressValues| == |w.call.fates| && Inv(given, Acted(w, k, a))
  {
    hide *;
    Parts(given, w);
    ActedRuns(w, k, a);
    var t, done, fail := Acted(w, k, a), Count(w, Deferreds.DoneList), Count(w, Deferreds.FailList);
    forall j | 0 <= j < |t.acts|
      ensures NotedAt(given, t, j)
    {
      NotedStill(given, w, k, a, j);
    }
    SamePlace(given, w, t.acts, t.call);
    NotedLists(given, t, k);
    ToldMore(given, w, done, k, a, done, fail);
    Whole(given, t);
  }

  lemma SamePlace<V>(given: seq<Given<V>>, w: World<V>, acts: seq<seq<Deferreds.Action<V>>>, call: Whens.State<V>)
    requires Placed(given, w)
    ensures var t := w.(acts := acts, call := call);
      && Count(t, Deferreds.DoneList) == Count(w, Deferreds.DoneList) >= Count(t, Deferreds.FailList)
      && Count(t, Deferreds.FailList) == Count(w, Deferreds.FailList)
      && ((Waits(w.call) ==> Waits(call)) ==> Placed(given, t))
  {
  }

  lemma NotedLists<V>(given: seq<Given<V>>, w: World<V>, k: nat)
    requires k < |w.acts| && NotedAt(given, w, k)
    ensures The(w, k) == Deferreds.Exec(w.acts[k])
    ensures Noted(given, k, The(w, k).doneRegs, Count(w, Deferreds.DoneList))
    ensures Noted(given, k, The(w, k).failRegs, Count(w, Deferreds.FailList))
  {
    hide Noted;
  }

  lemma NotedFold<V>(given: seq<Given<V>>, w: World<V>, k: nat)
    requires k < |w.acts|
    requires Noted(given, k, The(w, k).doneRegs, Count(w, Deferreds.DoneList))
    requires Noted(given, k, The(w, k).failRegs, Count(w, Deferreds.FailList))
    ensures NotedAt(given, w, k)
  {
    hide Noted, Deferreds.Exec;
  }

  lemma Whole<V>(given: seq<Given<V>>, w: World<V>)
    requires Valid(given, |w.acts|) && Placed(given, w) && Told(given, w, Count(w, Deferreds.DoneList))
    requires forall k :: 0 <= k < |w.acts| ==> NotedAt(given, w, k)
    ensures Inv(given, w)
  {
  }

  /** One list of a Deferred when `when` registers, on this list or another, of this Deferred or another. */
  lemma NotedNext<V>(given: seq<Given<V>>, j: nat, regs: seq<nat>, count: nat, ids: seq<nat>, n: nat, k: nat)
    requires n < |given| && given[n] == Subordinate(k) && Noted(given, j, regs, count)
    requires ids == [] || (ids == [n] && count == n)
    ensures Noted(given, j, regs + (if j == k then ids else []), count + |ids|)
  {
    hide Deferreds.Single;
    assert regs + [] == regs;
    if j == k && ids != [] { NotedMore(given, j, regs, n, ids); }
  }

  lemma Counts<V>(w: World<V>, which: Deferreds.Which)
    requires w.part <= 2 && !which.ProgressList?
    ensures var ids := Ids(Registration(w), which);
      && (ids == [] || (ids == [w.heard] && Count(w, which) == w.heard))
      && Count(Onward(w), which) == Count(w, which) + |ids|
  {
  }

  lemma NotedOnward<V>(given: seq<Given<V>>, w: World<V>, t: World<V>, k: nat, j: nat)
    requires w.part <= 2 && w.heard < |given| && given[w.heard] == Subordinate(k)
    requires k < |w.acts| && j < |w.acts| && Deferreds.UserTurn(The(w, k)) && NotedAt(given, w, j)
    requires |w.call.values| == |w.call.progressValues| == |w.call.fates|
    requires t == Acted(w, k, Registration(w)) == w.(acts := t.acts, call := t.call)
    ensures j < |Onward(t).acts| && NotedAt(given, Onward(t), j)
  {
    hide *;
    var a := Registration(w);
    MayRegister(w, k);
    ActedRegs(w, k, a, j);
    NotedLists(given, w, j);
    Counts(w, Deferreds.DoneList);
    Counts(w, Deferreds.FailList);
    NotedNext(given, j, The(w, j).doneRegs, Count(w, Deferreds.DoneList), Ids(a, Deferreds.DoneList), w.heard, k);
    NotedNext(given, j, The(w, j).failRegs, Count(w, Deferreds.FailList), Ids(a, Deferreds.FailList), w.heard, k);
    OnwardSame(w, t.acts, t.call, j);
    assert The(w, j).doneRegs + [] == The(w, j).doneRegs && The(w, j).failRegs + [] == The(w, j).failRegs;
    NotedFold(given, Onward(t), j);
  }

  lemma OnwardSame<V>(w: World<V>, acts: seq<seq<Deferreds.Action<V>>>, call: Whens.State<V>, j: nat)
    requires j < |acts|
    ensures var t := w.(acts := acts, call := call); var r := Onward(t);
      && r == Onward(w).(acts := acts, call := call) && The(r, j) == The(t, j)
      && Count(r, Deferreds.DoneList) == Count(Onward(w), Deferreds.DoneList)
      && Count(r, Deferreds.FailList) == Count(Onward(w), Deferreds.FailList)
  {
    hide Deferreds.Exec;
  }

  /** The next position, if it is a Deferred's, is still as it was at the start. */
  lemma ToldNext<V>(given: seq<Given<V>>, w: World<V>, n: nat)
    requires Told(given, w, n) && n < |given| && given[n].Subordinate?
    ensures Told(given, w, n + 1)
  {
    hide Delivered, Blamed, The;
  }

  lemma ToldSame<V>(given: seq<Given<V>>, w: World<V>, n: nat)
    requires Told(given, w, n)
    ensures Told(given, Onward(w), n)
  {
    hide Whens.Partial, Blamed, Delivered, Deferreds.Exec;
    var r := Onward(w);
    forall k | 0 <= k < |r.acts|
      ensures Delivered(given, k, r.call.fates, The(r, k).runs)
    {
      assert Delivered(given, k, w.call.fates, The(w, k).runs) && The(r, k) == The(w, k);
    }
  }

  lemma Forward<V>(given: seq<Given<V>>, w: World<V>, acts: seq<seq<Deferreds.Action<V>>>, call: Whens.State<V>)
    requires Placed(given, w) && w.heard < |given| && given[w.heard].Subordinate?
    ensures var t := Onward(w.(acts := acts, call := call));
      && t == Onward(w).(acts := acts, call := call) && Placed(given, t) && Count(t, Deferreds.DoneList) == w.heard + 1
      && Count(t, Deferreds.FailList) <= w.heard + 1
      && Count(w, Deferreds.DoneList) == (if w.part == 0 then w.heard else w.heard + 1)
  {
  }

  /** What `when` knows after it has registered its next callback. */
  lemma ListenTold<V>(given: seq<Given<V>>, w: World<V>, k: nat, t: World<V>)
    requires Told(given, w, Count(w, Deferreds.DoneList)) && Placed(given, w)
    requires w.heard < |given| && given[w.heard] == Subordinate(k) && k < |w.acts| && Deferreds.UserTurn(The(w, k))
    requires |w.call.values| == |w.call.progressValues| == |w.call.fates| == |given|
    requires t == Acted(w, k, Registration(w)) == w.(acts := t.acts, call := t.call)
    requires k < |Onward(t).acts| && NotedAt(given, Onward(t), k) && The(Onward(t), k) == The(t, k)
    requires t.acts == w.acts[k := w.acts[k] + [Registration(w)]]
    ensures Told(given, Onward(t), w.heard + 1)
  {
    hide *;
    var n, r := w.heard + 1, Onward(t);
    Forward(given, w, t.acts, t.call);
    MayRegister(w, k);
    NotedLists(given, r, k);
    if w.part == 0 { ToldNext(given, w, w.heard); }
    ToldMore(given, w, n, k, Registration(w), Count(r, Deferreds.DoneList), Count(r, Deferreds.FailList));
    ToldSame(given, t, n);
  }

  /** `when` registers its next callback. */
  lemma ListenInv<V>(given: seq<Given<V>>, w: World<V>, k: nat)
    requires Inv(given, w) && w.heard < |given| && given[w.heard] == Subordinate(k) && k < |w.acts|
    requires Deferreds.UserTurn(The(w, k))
    ensures |w.call.values| == |w.call.progressValues| == |w.call.fates|
    ensures Inv(given, Onward(Acted(w, k, Registration(w))))
  {
    hide *;
    Parts(given, w);
    MayRegister(w, k);
    ActedRuns(w, k, Registration(w));
    var t := Acted(w, k, Registration(w));
    Forward(given, w, t.acts, t.call);
    forall j | 0 <= j < |t.acts|
      ensures NotedAt(given, Onward(t), j)
    {
      NotedOnward(given, w, t, k, j);
    }
    OnwardSame(w, t.acts, t.call, k);
    ListenTold(given, w, k, t);
    Whole(given, Onward(t));
  }

  lemma MayRegister<V>(w: World<V>, k: nat)
    requires k < |w.acts| && Deferreds.UserTurn(The(w, k))
    ensures Deferreds.Enabled(The(w, k), Registration(w)) && Onward(w).acts == w.acts
  {
  }

  /** A new state of the call that differs at no position of a Deferred. */
  lemma ToldAs<V>(given: seq<Given<V>>, w: World<V>, t: World<V>, n: nat, m: nat)
    requires Told(given, w, n) && t.acts == w.acts && Whens.Partial(Args(given), m, t.call) && Blamed(t.call)
    requires |t.call.fates| == |w.call.fates|
    requires forall i :: 0 <= i < |t.call.fates| && i < |given| && given[i].Subordinate? ==>
               t.call.fates[i] == w.call.fates[i]
    ensures Told(given, t, m)
  {
    hide Whens.Partial, Blamed, Deferreds.Exec, Whens.FateOf;
    forall k | 0 <= k < |t.acts|
      ensures Delivered(given, k, t.call.fates, The(t, k).runs)
    {
      assert Delivered(given, k, w.call.fates, The(w, k).runs) && The(t, k) == The(w, k);
    }
  }

  lemma BlamedAs<V>(s: Whens.State<V>, i: nat, f: Whens.Fate<V>, t: Whens.State<V>)
    requires Blamed(s) && i < |s.fates| && s.fates[i].Waiting?
    requires t.fates == s.fates[i := f] && t.failures == s.failures
    ensures Blamed(t)
  {
    if t.failures != [] {
      var j :| 0 <= j < |s.fates| && s.fates[j] == Whens.Failed(s.failures[0]);
      assert t.fates[j] == Whens.Failed(t.failures[0]);
    }
  }

  /** The state of the call after its loop passed over a plain value. */
  lemma Passed<V>(given: seq<Given<V>>, s: Whens.State<V>, n: nat)
    requires n < |given| && given[n].Plain? && Whens.Partial(Args(given), n, s) && Blamed(s)
    requires |s.values| == |s.progressValues| == |s.fates| == |given|
    ensures var call := Whens.Listen(s, n, Whens.Plain(given[n].v));
      && Whens.Partial(Args(given), n + 1, call) && Blamed(call)
      && |call.fates| == |s.fates| && forall i :: 0 <= i < |given| && i != n ==> call.fates[i] == s.fates[i]
  {
    hide Blamed, Whens.Unresolved;
    Whens.ListenInv(Args(given), n, s);
    BlamedAs(s, n, Whens.Done(given[n].v), Whens.Listen(s, n, Whens.Plain(given[n].v)));
  }

  lemma NotedPast<V>(given: seq<Given<V>>, w: World<V>, call: Whens.State<V>, k: nat)
    requires Placed(given, w) && w.heard < |given| && given[w.heard].Plain? && k < |w.acts| && NotedAt(given, w, k)
    ensures NotedAt(given, w.(call := call, heard := w.heard + 1), k)
  {
    hide *;
    CountsPast(given, w, call, k);
    NotedLists(given, w, k);
    NotedOther(given, k, The(w, k).doneRegs, w.heard);
    NotedOther(given, k, The(w, k).failRegs, w.heard);
    NotedFold(given, w.(call := call, heard := w.heard + 1), k);
  }

  lemma CountsPast<V>(given: seq<Given<V>>, w: World<V>, call: Whens.State<V>, k: nat)
    requires Placed(given, w) && w.heard < |given| && given[w.heard].Plain? && k < |w.acts|
    ensures var t := w.(call := call, heard := w.heard + 1);
      && The(t, k) == The(w, k)
      && forall which: Deferreds.Which ::
        !which.ProgressList? ==> Count(w, which) == w.heard && Count(t, which) == w.heard + 1
  {
  }

  /** The registration loop passes over a plain value. */
  lemma PassInv<V>(given: seq<Given<V>>, w: World<V>)
    requires Inv(given, w) && w.heard < |given| && given[w.heard].Plain?
    ensures |w.call.values| == |w.call.progressValues| == |w.call.fates|
    ensures var call := Whens.Listen(w.call, w.heard, Whens.Plain(given[w.heard].v));
      Inv(given, w.(call := call, heard := w.heard + 1))
  {
    hide Inv, Whens.Partial, Told, NotedAt, Valid, Blamed;
    Parts(given, w);
    ToldParts(given, w, w.heard);
    Passed(given, w.call, w.heard);
    var call := Whens.Listen(w.call, w.heard, Whens.Plain(given[w.heard].v));
    var t := w.(call := call, heard := w.heard + 1);
    forall k | 0 <= k < |w.acts|
      ensures NotedAt(given, t, k)
    {
      NotedPast(given, w, call, k);
    }
    ToldAs(given, w, t, w.heard, w.heard + 1);
    Whole(given, t);
  }

  /** The master may be resolved at the end of the call. */
  lemma Settled<V>(given: seq<Given<V>>, s: Whens.State<V>)
    requires Whens.Partial(Args(given), |given|, s) && Blamed(s)
    ensures var call := if s.remaining == 0 then Whens.ResolveMaster(s) else s;
      Whens.Partial(Args(given), |given|, call) && Blamed(call) && call.fates == s.fates && Waits(call)
  {
    Whens.UnresolvedZero(s.fates);
    hide Whens.Unresolved;
  }

  /** The call of `when` ends. */
  lemma EndInv<V>(given: seq<Given<V>>, w: World<V>)
    requires Inv(given, w) && w.heard == |given|
    ensures var call := if w.call.remaining == 0 then Whens.ResolveMaster(w.call) else w.call;
      Inv(given, w.(call := call, ended := true))
  {
    hide Inv, Whens.Partial, Told, NotedAt, Valid, Blamed, Waits, Whens.ResolveMaster;
    Parts(given, w);
    ToldParts(given, w, w.heard);
    Settled(given, w.call);
    var call := if w.call.remaining == 0 then Whens.ResolveMaster(w.call) else w.call;
    var t := w.(call := call, ended := true);
    forall k | 0 <= k < |w.acts|
      ensures NotedAt(given, t, k)
    {
      NotedEnded(given, w, call, k);
    }
    ToldAs(given, w, t, w.heard, w.heard);
    Whole(given, t);
  }

  lemma NotedEnded<V>(given: seq<Given<V>>, w: World<V>, call: Whens.State<V>, k: nat)
    requires k < |w.acts| && NotedAt(given, w, k)
    ensures NotedAt(given, w.(call := call, ended := true), k)
  {
    hide Noted, Deferreds.Exec;
  }

  /** Every move keeps what `when` knows in line with what its Deferreds have done. */
  lemma StepInv<V>(given: seq<Given<V>>, w: World<V>, m: Move<V>)
    requires Inv(given, w) && Enabled(given, w, m)
    ensures Inv(given, Step(given, w, m)) && |Step(given, w, m).acts| == |w.acts|
  {
    hide Inv, Acted, The, Deferreds.Enabled, Deferreds.UserTurn, Whens.Listen, Whens.ResolveMaster;
    match m
    case Act(k, a) =>
      ActInv(given, w, k, a);
      ActedRuns(w, k, a);
    case Listen =>
      if given[w.heard].Plain? {
        PassInv(given, w);
      } else {
        var k := given[w.heard].k;
        ListenInv(given, w, k);
        MayRegister(w, k);
        ActedRuns(w, k, Registration(w));
      }
    case End => EndInv(given, w);
  }

  // ---------- what every run guarantees ----------

  /** This run tells of this fate. */
  ghost predicate Tells<V>(r: Deferreds.Run<V>, x: nat, f: Whens.Fate<V>) {
    r.id == x && ((r.which.DoneList? && f == Whens.Done(r.args)) || (r.which.FailList? && f == Whens.Failed(r.args)))
  }

  lemma {:induction false} FateRun<V>(runs: seq<Deferreds.Run<V>>, x: nat)
    ensures var f := Whens.FateOf(runs, x, x); f.Waiting? || exists i :: 0 <= i < |runs| && Tells(runs[i], x, f)
    ensures (exists i :: 0 <= i < |runs| && Whens.Delivers(runs[i], x, x)) ==> !Whens.FateOf(runs, x, x).Waiting?
  {
    if runs != [] {
      var n := |runs| - 1;
      FateRun(runs[..n], x);
      if !Whens.Delivers(runs[n], x, x) {
        if i :| 0 <= i < |runs| && Whens.Delivers(runs[i], x, x) {
          assert Whens.Delivers(runs[..n][i], x, x);
        }
      } else {
        assert Tells(runs[n], x, Whens.FateOf(runs, x, x));
      }
    }
  }

  lemma {:induction false} RanSome<V>(runs: seq<Deferreds.Run<V>>, which: Deferreds.Which, x: nat)
    requires x in Deferreds.RunIds(runs, which)
    ensures exists i :: 0 <= i < |runs| && runs[i].which == which && runs[i].id == x
  {
    var n := |runs| - 1;
    if !(runs[n].which == which && runs[n].id == x) {
      RanSome(runs[..n], which, x);
      var i :| 0 <= i < n && runs[..n][i].which == which && runs[..n][i].id == x;
      assert runs[i].which == which;
    }
  }

  /** The call of `resolve` with this value. */
  function Resolving<V>(v: V): Option<Deferreds.Action<V>> {
    Some(Deferreds.Fire(Deferreds.DoneList, v))
  }

  function Rejecting<V>(v: V): Option<Deferreds.Action<V>> {
    Some(Deferreds.Fire(Deferreds.FailList, v))
  }

  predicate Asked<V>(first: Option<Deferreds.Action<V>>, which: Deferreds.Which) {
    first.Some? && first.value.Fire? && first.value.which == which
  }

  /** What has been delivered is what the Deferred was first asked for; at rest, it has been delivered. */
  lemma FateIs<V>(acts: seq<Deferreds.Action<V>>, x: nat)
    ensures var d, f := Deferreds.Exec(acts), Whens.FateOf(Deferreds.Exec(acts).runs, x, x);
      var first := Deferreds.FirstRequest(acts);
      && (f.Done? ==> first == Resolving(f.value))
      && (f.Failed? ==> first == Rejecting(f.reason))
      && (d.frames == [] && x in d.doneRegs && Asked(first, Deferreds.DoneList) ==> f.Done?)
      && (d.frames == [] && x in d.failRegs && Asked(first, Deferreds.FailList) ==> f.Failed?)
  {
    var d, first := Deferreds.Exec(acts), Deferreds.FirstRequest(acts);
    hide Deferreds.Exec, Whens.FateOf, Deferreds.RunIds, Deferreds.FirstRequest, Deferreds.UserTurn;
    FateRun(d.runs, x);
    Deferreds.OutcomeOf(acts);
    Deferreds.RegisteredAre(acts);
    if d.frames == [] && Asked(first, Deferreds.DoneList) && x in d.doneRegs {
      RanSome(d.runs, Deferreds.DoneList, x);
    }
    if d.frames == [] && Asked(first, Deferreds.FailList) && x in d.failRegs {
      RanSome(d.runs, Deferreds.FailList, x);
    }
  }

  /** No callback of any of the Deferreds is in progress. */
  ghost predicate AtRest<V>(w: World<V>) {
    forall k :: 0 <= k < |w.acts| ==> The(w, k).frames == []
  }

  /** The first request each Deferred got. */
  ghost function Firsts<V>(w: World<V>): (asks: seq<Option<Deferreds.Action<V>>>)
    ensures |asks| == |w.acts|
  {
    seq(|w.acts|, k requires 0 <= k < |w.acts| => Deferreds.FirstRequest(w.acts[k]))
  }

  /** The argument has this value: it is plain, or a Deferred that was first asked to resolve with it. */
  ghost predicate HasValue<V>(g: Given<V>, asks: seq<Option<Deferreds.Action<V>>>, v: V) {
    match g
    case Plain(u) => u == v
    case Subordinate(k) => k < |asks| && asks[k] == Resolving(v)
  }

  ghost predicate HasFailed<V>(g: Given<V>, asks: seq<Option<Deferreds.Action<V>>>, reason: V) {
    g.Subordinate? && g.k < |asks| && asks[g.k] == Rejecting(reason)
  }

  /** The argument is a Deferred that was first asked for this. */
  ghost predicate AskedFor<V>(g: Given<V>, asks: seq<Option<Deferreds.Action<V>>>, which: Deferreds.Which) {
    g.Subordinate? && g.k < |asks| && Asked(asks[g.k], which)
  }

  /** What the call knows of one position. */
  lemma Position<V>(given: seq<Given<V>>, w: World<V>, i: nat)
    requires Inv(given, w) && i < |given|
    ensures |w.call.fates| == |given|
    ensures var f, asks := w.call.fates[i], Firsts(w);
      && (f.Done? ==> HasValue(given[i], asks, f.value))
      && (f.Failed? ==> HasFailed(given[i], asks, f.reason))
      && (w.ended && AtRest(w) ==>
            && (f.Done? <==> given[i].Plain? || AskedFor(given[i], asks, Deferreds.DoneList))
            && (f.Failed? <==> AskedFor(given[i], asks, Deferreds.FailList)))
  {
    hide Whens.Partial, Inv, Blamed, Deferreds.Exec, Whens.FateOf, Deferreds.FirstRequest, Waits, Deferreds.Single;
    Parts(given, w);
    Plains(given, w, i);
    if given[i].Subordinate? {
      var k := given[i].k;
      FateIs(w.acts[k], i);
      assert NotedAt(given, w, k) && Delivered(given, k, w.call.fates, The(w, k).runs);
    }
  }

  lemma Plains<V>(given: seq<Given<V>>, w: World<V>, i: nat)
    requires Placed(given, w) && Told(given, w, Count(w, Deferreds.DoneList)) && i < |given|
    ensures |w.call.fates| == |given|
    ensures given[i].Plain? ==>
      if i < w.heard then w.call.fates[i] == Whens.Done(given[i].v) else w.call.fates[i].Waiting?
  {
    hide Delivered, Blamed, Deferreds.Exec;
  }

  /** What was first asked of each Deferred in the course of these moves. */
  ghost function Asks<V>(given: seq<Given<V>>, m: nat, moves: seq<Move<V>>): (asks: seq<Option<Deferreds.Action<V>>>)
    requires Valid(given, m)
    ensures |asks| == m
  {
    if moves == [] then seq(m, _ => None)
    else
      var n := |moves| - 1;
      var asks := Asks(given, m, moves[..n]);
      if moves[n].Act? && moves[n].a.Fire? && !moves[n].a.which.ProgressList?
         && Enabled(given, Exec(given, m, moves[..n]), moves[n]) && asks[moves[n].k].None?
        then asks[moves[n].k := Some(moves[n].a)]
        else asks
  }

  lemma FirstMore<V>(acts: seq<Deferreds.Action<V>>, a: Deferreds.Action<V>)
    requires Deferreds.Enabled(Deferreds.Exec(acts), a)
    ensures var first := Deferreds.FirstRequest(acts);
      Deferreds.FirstRequest(acts + [a])
      == if first.None? && a.Fire? && !a.which.ProgressList? then Some(a) else first
  {
    assert (acts + [a])[..|acts|] == acts;
    hide Deferreds.Exec, Deferreds.Enabled;
  }

  lemma FirstsActed<V>(w: World<V>, k: nat, a: Deferreds.Action<V>)
    requires k < |w.acts| && |w.call.values| == |w.call.progressValues| == |w.call.fates|
    requires Deferreds.Enabled(The(w, k), a)
    ensures var asks := Firsts(w);
      Firsts(Acted(w, k, a))
      == if asks[k].None? && a.Fire? && !a.which.ProgressList? then asks[k := Some(a)] else asks
  {
    hide *;
    TheIs(w, k);
    ActedRuns(w, k, a);
    FirstMore(w.acts[k], a);
    FirstsPut(w, Acted(w, k, a), k, w.acts[k] + [a]);
  }

  lemma TheIs<V>(w: World<V>, k: nat)
    requires k < |w.acts|
    ensures The(w, k) == Deferreds.Exec(w.acts[k])
  {
    hide Deferreds.Exec;
  }

  lemma FirstsPut<V>(w: World<V>, t: World<V>, k: nat, more: seq<Deferreds.Action<V>>)
    requires k < |w.acts| && t.acts == w.acts[k := more]
    ensures Firsts(t) == Firsts(w)[k := Deferreds.FirstRequest(more)]
    ensures Firsts(w)[k] == Deferreds.FirstRequest(w.acts[k])
  {
    hide Deferreds.FirstRequest;
  }

  lemma FirstsStep<V>(given: seq<Given<V>>, w: World<V>, move: Move<V>)
    requires Inv(given, w) && Enabled(given, w, move)
    ensures var asks := Firsts(w);
      Firsts(Step(given, w, move))
      == if move.Act? && move.a.Fire? && !move.a.which.ProgressList? && asks[move.k].None?
           then asks[move.k := Some(move.a)] else asks
  {
    hide Inv, Acted, Told, NotedAt, Valid, Placed, Deferreds.Exec, Deferreds.Enabled, Deferreds.UserTurn, Firsts;
    Parts(given, w);
    match move
    case Act(k, a) => FirstsActed(w, k, a);
    case Listen =>
      if given[w.heard].Subordinate? {
        var k := given[w.heard].k;
        MayRegister(w, k);
        FirstsActed(w, k, Registration(w));
        SameFirsts(Acted(w, k, Registration(w)), Onward(Acted(w, k, Registration(w))));
      } else {
        SameFirsts(w, Step(given, w, move));
      }
    case End => SameFirsts(w, Step(given, w, move));
  }

  lemma SameFirsts<V>(w: World<V>, t: World<V>)
    requires w.acts == t.acts
    ensures Firsts(w) == Firsts(t)
  {
  }

  /** What the moves say was asked is what the Deferreds were asked. */
  lemma {:induction false} AsksAre<V>(given: seq<Given<V>>, m: nat, moves: seq<Move<V>>)
    requires Valid(given, m)
    ensures Firsts(Exec(given, m, moves)) == Asks(given, m, moves)
  {
    hide Inv, Step, Enabled, Valid;
    if moves == [] {
      assert forall k :: 0 <= k < m ==> Firsts(New(given, m))[k] == None;
    } else {
      var n := |moves| - 1;
      AsksAre(given, m, moves[..n]);
      hide Firsts;
      var w := Exec(given, m, moves[..n]);
      if Enabled(given, w, moves[n]) { FirstsStep(given, w, moves[n]); }
    }
  }

  ghost predicate AllResolved<V>(given: seq<Given<V>>, asks: seq<Option<Deferreds.Action<V>>>) {
    forall i :: 0 <= i < |given| && given[i].Subordinate? ==> AskedFor(given[i], asks, Deferreds.DoneList)
  }

  ghost predicate SomeRejected<V>(given: seq<Given<V>>, asks: seq<Option<Deferreds.Action<V>>>) {
    exists i :: 0 <= i < |given| && AskedFor(given[i], asks, Deferreds.FailList)
  }

  /**
   * In every run, told from the moves alone: a resolved master was resolved with the values of all its arguments,
   * each at its position, and a rejected one with the reason of one of them, where a Deferred has the value or the
   * reason that it was first asked to resolve or reject with.  Once the call has ended and no callback is in
   * progress, the master is resolved if and only if every Deferred among the arguments was first asked to resolve,
   * and rejected if and only if one of them was first asked to reject.
   */
  lemma WhenSettles<V>(given: seq<Given<V>>, m: nat, moves: seq<Move<V>>)
    requires Valid(given, m)
    ensures var w, asks := Exec(given, m, moves), Asks(given, m, moves);
      && (w.call.master.ResolvedWith? ==>
            && |w.call.master.values| == |given|
            && forall i :: 0 <= i < |given| ==>
                 w.call.master.values[i].Value? && HasValue(given[i], asks, w.call.master.values[i].v))
      && (w.call.master.RejectedWith? ==>
            exists i :: 0 <= i < |given| && HasFailed(given[i], asks, w.call.master.reason))
      && (w.ended && AtRest(w) ==>
            && (w.call.master.ResolvedWith? <==> AllResolved(given, asks))
            && (w.call.master.RejectedWith? <==> SomeRejected(given, asks)))
  {
    var w, asks := Exec(given, m, moves), Asks(given, m, moves);
    hide Exec, Asks, Firsts, Inv, HasValue, HasFailed, AskedFor, AtRest, AllResolved, SomeRejected;
    AsksAre(given, m, moves);
    Outcome(given, w);
    forall i | 0 <= i < |given|
      ensures var f := w.call.fates[i];
        (f.Done? ==> HasValue(given[i], asks, f.value)) && (f.Failed? ==> HasFailed(given[i], asks, f.reason))
    {
      Position(given, w, i);
    }
    if w.ended && AtRest(w) { Resting(given, w); }
  }

  /** At rest the positions tell how the Deferreds stand. */
  lemma Resting<V>(given: seq<Given<V>>, w: World<V>)
    requires Inv(given, w) && w.ended && AtRest(w)
    ensures w.call.master.ResolvedWith? <==> AllResolved(given, Firsts(w))
    ensures w.call.master.RejectedWith? <==> SomeRejected(given, Firsts(w))
  {
    hide Inv, AtRest, The, Placed, Told, NotedAt, Firsts, AskedFor, HasValue, HasFailed;
    Parts(given, w);
    Outcome(given, w);
    forall i | 0 <= i < |given|
      ensures w.call.fates[i].Done? <==> given[i].Plain? || AskedFor(given[i], Firsts(w), Deferreds.DoneList)
      ensures w.call.fates[i].Failed? <==> AskedFor(given[i], Firsts(w), Deferreds.FailList)
    {
      Position(given, w, i);
    }
    PlainNotAsked(given, Firsts(w));
  }

  lemma PlainNotAsked<V>(given: seq<Given<V>>, asks: seq<Option<Deferreds.Action<V>>>)
    ensures forall i, which: Deferreds.Which :: 0 <= i < |given| && AskedFor(given[i], asks, which) ==>
              given[i].Subordinate?
  {
  }

  // ---------- every call can be completed ----------

  /** The calls that `when` has still to make. */
  function CallsLeft<V>(given: seq<Given<V>>, w: World<V>): int {
    3 * (|given| - w.heard) - w.part + if w.ended then 0 else 1
  }

  ghost function Burden<V>(acts: seq<seq<Deferreds.Action<V>>>): nat {
    if acts == [] then 0 else Burden(acts[..|acts| - 1]) + Deferreds.BurdenOf(acts[|acts| - 1])
  }

  lemma {:induction false} BurdenPut<V>(acts: seq<seq<Deferreds.Action<V>>>, k: nat, more: seq<Deferreds.Action<V>>)
    requires k < |acts| && Deferreds.BurdenOf(more) < Deferreds.BurdenOf(acts[k])
    ensures Burden(acts[k := more]) < Burden(acts)
  {
    hide Deferreds.BurdenOf;
    var n := |acts| - 1;
    if k < n {
      BurdenPut(acts[..n], k, more);
      assert acts[k := more][..n] == acts[..n][k := more];
    } else {
      assert acts[k := more][..n] == acts[..n];
    }
  }

  /** The next move of a world that is left alone: a callback goes on or comes back, or the call of `when` goes on. */
  lemma GoesOn<V>(given: seq<Given<V>>, w: World<V>) returns (move: Move<V>)
    requires Inv(given, w) && !(w.ended && AtRest(w))
    ensures Enabled(given, w, move) && (move.Act? ==> move.a.Turn? || move.a.Back?)
    ensures CallsLeft(given, w) >= 0
    ensures CallsLeft(given, Step(given, w, move)) < CallsLeft(given, w)
      || (CallsLeft(given, Step(given, w, move)) == CallsLeft(given, w)
          && Burden(Step(given, w, move).acts) < Burden(w.acts))
  {
    hide Inv, Told, NotedAt, Deferreds.Exec, Deferreds.Enabled, Acted, Burden, Deferreds.BurdenOf, Heard, Registration;
    Parts(given, w);
    if k :| 0 <= k < |w.acts| && The(w, k).frames != [] {
      var a := Deferreds.NextAct(w.acts[k]);
      move := Act(k, a);
      ActedRuns(w, k, a);
      BurdenPut(w.acts, k, w.acts[k] + [a]);
    } else if w.heard < |given| {
      move := Listen;
      if given[w.heard].Subordinate? {
        var k := given[w.heard].k;
        MayRegister(w, k);
        ActedRuns(w, k, Registration(w));
      }
    } else {
      move := End;
    }
  }

  /**
   * From any world a run can reach, if nothing more is done to the Deferreds, the call of `when` ends, and all
   * callbacks in progress come to an end; what was first asked of each Deferred stays.
   */
  lemma {:induction false} CallEnds<V>(given: seq<Given<V>>, m: nat, moves: seq<Move<V>>) returns (more: seq<Move<V>>)
    requires Valid(given, m)
    ensures var w := Exec(given, m, moves + more); w.ended && AtRest(w)
    ensures Asks(given, m, moves + more) == Asks(given, m, moves)
    decreases CallsLeft(given, Exec(given, m, moves)), Burden(Exec(given, m, moves).acts)
  {
    hide *;
    var w := Exec(given, m, moves);
    if w.ended && AtRest(w) {
      more := [];
      assert moves + more == moves;
    } else {
      var move := GoesOn(given, w);
      ExecNext(given, m, moves, move);
      AsksNext(given, m, moves, move);
      more := CallEnds(given, m, moves + [move]);
      assert (moves + [move]) + more == moves + ([move] + more);
      more := [move] + more;
    }
  }

  lemma AsksNext<V>(given: seq<Given<V>>, m: nat, moves: seq<Move<V>>, move: Move<V>)
    requires Valid(given, m) && (move.Act? ==> move.a.Turn? || move.a.Back?)
    ensures Asks(given, m, moves + [move]) == Asks(given, m, moves)
  {
    assert (moves + [move])[..|moves|] == moves;
    hide Exec, Enabled;
  }

  lemma HeardSettled<V>(s: Whens.State<V>, r: Deferreds.Run<V>)
    requires |s.values| == |s.progressValues| == |s.fates| && !s.master.Unsettled?
    ensures Heard(s, r).master == s.master
  {
  }

  lemma ActSettled<V>(w: World<V>, k: nat, a: Deferreds.Action<V>)
    requires k < |w.acts| && |w.call.values| == |w.call.progressValues| == |w.call.fates|
    requires !w.call.master.Unsettled?
    ensures Acted(w, k, a).call.master == w.call.master
  {
    hide Deferreds.Exec, Heard;
    var before, runs := The(w, k).runs, Deferreds.Exec(w.acts[k] + [a]).runs;
    if |runs| > |before| { HeardSettled(w.call, runs[|runs| - 1]); }
  }

  lemma ListenSettled<V>(given: seq<Given<V>>, w: World<V>)
    requires Inv(given, w) && Enabled(given, w, Listen) && !w.call.master.Unsettled?
    ensures Step(given, w, Listen).call.master == w.call.master
  {
    hide Inv, Acted, The, Told, NotedAt, Valid, Placed, Registration, Deferreds.UserTurn;
    Parts(given, w);
    if given[w.heard].Subordinate? { ActSettled(w, given[w.heard].k, Registration(w)); }
  }

  /** A settled master stays as it is, whatever is done to the Deferreds. */
  lemma StepSettled<V>(given: seq<Given<V>>, w: World<V>, move: Move<V>)
    requires Inv(given, w) && Enabled(given, w, move) && !w.call.master.Unsettled?
    ensures Step(given, w, move).call.master == w.call.master
  {
    if move.Listen? {
      ListenSettled(given, w);
    } else {
      Parts(given, w);
      hide Inv, Acted, The, Told, NotedAt, Valid, Placed, Whens.Listen, Deferreds.Enabled;
      if move.Act? { ActSettled(w, move.k, move.a); }
    }
  }

  lemma ExecNext<V>(given: seq<Given<V>>, m: nat, moves: seq<Move<V>>, move: Move<V>)
    requires Valid(given, m)
    ensures var w, t := Exec(given, m, moves), Exec(given, m, moves + [move]);
      if Enabled(given, w, move) then t == Step(given, w, move) else t == w
  {
    assert (moves + [move])[..|moves|] == moves;
    hide Inv, Step, Enabled, Valid;
  }

  lemma {:induction false} WhenSettlesOnce<V>(given: seq<Given<V>>, m: nat, moves: seq<Move<V>>, more: seq<Move<V>>)
    requires Valid(given, m) && !Exec(given, m, moves).call.master.Unsettled?
    ensures Exec(given, m, moves + more).call.master == Exec(given, m, moves).call.master
    decreases |more|
  {
    hide *;
    if more == [] {
      assert moves + more == moves;
    } else {
      var n := |more| - 1;
      WhenSettlesOnce(given, m, moves, more[..n]);
      assert moves + more == (moves + more[..n]) + [more[n]];
      ExecNext(given, m, moves + more[..n], more[n]);
      var w := Exec(given, m, moves + more[..n]);
      if Enabled(given, w, more[n]) { StepSettled(given, w, more[n]); }
    }
  }

  /** The master as the positions tell it. */
  lemma Outcome<V>(given: seq<Given<V>>, w: World<V>)
    requires Inv(given, w)
    ensures var s := w.call;
      && |s.fates| == |given|
      && (s.master.ResolvedWith? ==>
            && Whens.AllDone(s.fates) && |s.master.values| == |given|
            && forall i :: 0 <= i < |given| ==> s.master.values[i] == Whens.Value(s.fates[i].value))
      && (s.master.RejectedWith? ==>
            exists i :: 0 <= i < |given| && s.fates[i] == Whens.Failed(s.master.reason))
      && (w.ended && Whens.AllDone(s.fates) ==> s.master.ResolvedWith?)
      && ((exists i :: 0 <= i < |given| && s.fates[i].Failed?) ==> s.master.RejectedWith?)
  {
    Parts(given, w);
    Whens.UnresolvedZero(w.call.fates);
    hide Inv, Delivered, The, Whens.Unresolved;
  }
}
