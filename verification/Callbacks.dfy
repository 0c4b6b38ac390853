/**
 * jQuery.Callbacks as a small-step machine.
 *
 * A callback that is running may call any operation of the list that is running it, so a firing
 * loop is cut into steps: `LoopStep` is one evaluation of the loop condition (which starts the next
 * callback, or leaves the loop), `Return` is a callback body finishing.  Between the two, every
 * operation open to user code may happen, in any order and any number of times.
 */
module Callbacks {
  import opened Wrappers

  /** The options of a list. */
  datatype Options = Options(once: bool, memory: bool, unique: bool, stopOnFalse: bool)

  /** One entry of `list`.  The program only ever looks at `fn`; `serial` numbers the pushes. */
  datatype Reg<F> = Reg(fn: F, serial: nat)

  datatype Call<A> = Call(serial: nat, args: A)

  /**
   * How a firing loop ended: it has not, it ran out of entries (these still present), the list was disabled, or
   * a callback returned false.
   */
  datatype End = Open | Ran(survivors: seq<nat>) | Cut | Stopped

  /**
   * History of one firing loop: its arguments, whether `add` started it to replay the memorised
   * arguments, the entries it was told to pass over, the entries it invoked in order, and its end.
   */
  datatype Batch<A> = Batch(args: A, replay: bool, skipped: set<nat>, calls: seq<nat>, end: End)

  /** The variables of one list, the parameter of the running `fire`, and the history of the run. */
  datatype State<F, A> = State(
    options: Options,
    firing: bool, memory: Option<A>, fired: bool,
    firingLength: int, firingIndex: int, firingStart: nat,
    list: Option<seq<Reg<F>>>, stack: Option<seq<A>>,
    data: Option<A>, running: bool,
    nextSerial: nat, calls: seq<Call<A>>, batches: seq<Batch<A>>, accepted: seq<A>)

  function Init<F, A>(options: Options): State<F, A> {
    State(options, false, None, false, 0, 0, 0, Some([]), if options.once then None else Some([]),
          None, false, 0, [], [], [])
  }

  // ---------- operations ----------

  function Serials<F>(regs: seq<Reg<F>>): (ss: seq<nat>)
    ensures |ss| == |regs|
  {
    seq(|regs|, i requires 0 <= i < |regs| => regs[i].serial)
  }

  ghost function SerialSet<F>(regs: seq<Reg<F>>): set<nat> {
    set i | 0 <= i < |regs| :: regs[i].serial
  }

  predicate Has<F(==)>(regs: seq<Reg<F>>, fn: F) {
    exists i :: 0 <= i < |regs| && regs[i].fn == fn
  }

  /** The list without every entry holding `fn`. */
  function Without<F(==)>(regs: seq<Reg<F>>, fn: F): (r: seq<Reg<F>>)
    ensures |r| <= |regs|
  {
    if regs == [] then []
    else
      var front := Without(regs[..|regs| - 1], fn);
      if regs[|regs| - 1].fn == fn then front else front + [regs[|regs| - 1]]
  }

  /** Pushes the functions in turn; under `unique` a function already present is not pushed again. */
  function PushAll<F(==), A>(m: State<F, A>, fns: seq<F>): (r: State<F, A>)
    requires m.list.Some?
    ensures r.list.Some? && r == m.(list := r.list, nextSerial := r.nextSerial)
    decreases |fns|
  {
    if fns == [] then m
    else if m.options.unique && Has(m.list.value, fns[0]) then PushAll(m, fns[1..])
    else
      PushAll(m.(list := Some(m.list.value + [Reg(fns[0], m.nextSerial)]), nextSerial := m.nextSerial + 1), fns[1..])
  }

  /** The head of `fire`, up to its loop. */
  ghost function StartFire<F, A>(m: State<F, A>, data: A, replay: bool): State<F, A>
    requires m.list.Some? && m.firingStart <= |m.list.value|
  {
    m.(memory := if m.options.memory then Some(data) else None,
       fired := true, firingIndex := m.firingStart, firingStart := 0,
       firingLength := |m.list.value|, firing := true, data := Some(data), running := false,
       batches := m.batches + [Batch(data, replay, SerialSet(m.list.value[..m.firingStart]), [], Open)])
  }

  ghost function Add<F, A>(m: State<F, A>, fns: seq<F>): State<F, A> {
    if m.list.None? then m
    else
      var start := |m.list.value|;
      var p := PushAll(m, fns);
      PushAllExtends(m, fns);
      if m.firing then p.(firingLength := |p.list.value|)
      else if m.memory.Some? then StartFire(p.(firingStart := start), m.memory.value, true)
      else p
  }

  ghost function Remove<F, A>(m: State<F, A>, fn: F): State<F, A> {
    if m.list.None? then m
    else
      var l := Without(m.list.value, fn);
      if m.firing && -1 <= m.firingIndex < |m.list.value| then
        m.(list := Some(l), firingLength := m.firingLength - (|m.list.value| - |l|),
           firingIndex := |Without(m.list.value[..m.firingIndex + 1], fn)| - 1)
      else m.(list := Some(l))
  }

  function Disable<F, A>(m: State<F, A>): State<F, A> {
    m.(list := None, stack := None, memory := None)
  }

  function Lock<F, A>(m: State<F, A>): State<F, A> {
    if m.memory.None? then Disable(m) else m.(stack := None)
  }

  function Empty<F, A>(m: State<F, A>): State<F, A> {
    m.(list := Some([]))
  }

  ghost predicate Accepts<F, A>(m: State<F, A>) {
    m.list.Some? && (!m.fired || m.stack.Some?)
  }

  ghost function FireWith<F, A>(m: State<F, A>, args: A): State<F, A>
    requires WellFormed(m)
  {
    if !Accepts(m) then m
    else if m.firing then m.(stack := Some(m.stack.value + [args]), accepted := m.accepted + [args])
    else StartFire(m.(accepted := m.accepted + [args]), args, false)
  }

  /** One evaluation of the loop condition of `fire`, with the code after the loop when it fails. */
  ghost function LoopStep<F, A>(m: State<F, A>): State<F, A>
    requires WellFormed(m) && m.firing && !m.running
  {
    if m.list.Some? && m.firingIndex < m.firingLength then
      var serial := m.list.value[m.firingIndex].serial;
      var b := m.batches[|m.batches| - 1];
      m.(running := true, calls := m.calls + [Call(serial, m.data.value)],
         batches := m.batches[|m.batches| - 1 := b.(calls := b.calls + [serial])])
    else
      AfterLoop(m, if m.list.Some? then Ran(Serials(m.list.value)) else Cut)
  }

  /** The code of `fire` after its loop. */
  ghost function AfterLoop<F, A>(m: State<F, A>, end: End): State<F, A>
    requires |m.batches| > 0 && m.firingStart == 0
  {
    var b := m.batches[|m.batches| - 1];
    var ended := m.(firing := false, batches := m.batches[|m.batches| - 1 := b.(end := end)]);
    if m.list.None? then ended
    else
      if m.stack.Some? then
        if |m.stack.value| > 0 then StartFire(ended.(stack := Some(m.stack.value[1..])), m.stack.value[0], false)
        else ended
      else if m.memory.Some? then ended.(list := Some([]))
      else Disable(ended)
  }

  ghost function Return<F, A>(m: State<F, A>): State<F, A> {
    m.(running := false, firingIndex := m.firingIndex + 1)
  }

  /** A callback returns false: with `stopOnFalse` the loop is left and what was memorised is forgotten. */
  ghost function ReturnFalse<F, A>(m: State<F, A>): State<F, A>
    requires WellFormed(m) && m.running
  {
    if m.options.stopOnFalse then AfterLoop(m.(running := false, memory := None), Stopped) else Return(m)
  }

  // ---------- runs ----------

  datatype Action<F, A> =
    | DoAdd(fns: seq<F>) | DoRemove(fn: F) | DoFire(args: A)
    | DoDisable | DoLock | DoEmpty
    | DoLoop | DoReturn | DoReturnFalse

  /** User code has control when the list is idle or one of its callbacks is running. */
  ghost predicate Enabled<F, A>(m: State<F, A>, a: Action<F, A>) {
    match a
    case DoLoop => m.firing && !m.running
    case DoReturn => m.running
    case DoReturnFalse => m.running
    case DoEmpty => !m.firing
    case _ => m.firing ==> m.running
  }

  ghost function Step<F, A>(m: State<F, A>, a: Action<F, A>): State<F, A>
    requires Inv(m) && Enabled(m, a)
  {
    match a
    case DoAdd(fns) => Add(m, fns)
    case DoRemove(fn) => Remove(m, fn)
    case DoFire(args) => FireWith(m, args)
    case DoDisable => Disable(m)
    case DoLock => Lock(m)
    case DoEmpty => Empty(m)
    case DoLoop => LoopStep(m)
    case DoReturn => Return(m)
    case DoReturnFalse => ReturnFalse(m)
  }

  /** The state after a sequence of actions; an action that is not enabled is passed over. */
  ghost function Exec<F, A>(options: Options, acts: seq<Action<F, A>>): (m: State<F, A>)
    ensures Inv(m) && m.options == options
  {
    if acts == [] then InitInv<F, A>(options); Init(options)
    else
      var m := Exec(options, acts[..|acts| - 1]);
      var a := acts[|acts| - 1];
      if Enabled(m, a) then StepInv(m, a); Step(m, a) else m
  }

  // ---------- the invariant ----------

  ghost predicate Increasing(s: seq<nat>) {
    forall i, j :: 0 <= i < j < |s| ==> s[i] < s[j]
  }

  ghost predicate Ordered<F>(regs: seq<Reg<F>>) {
    forall i, j :: 0 <= i < j < |regs| ==> regs[i].serial < regs[j].serial
  }

  ghost predicate AllBelow<F>(regs: seq<Reg<F>>, bound: nat) {
    forall i :: 0 <= i < |regs| ==> regs[i].serial < bound
  }

  /** The entries before `done` have been dealt with in the batch; those from `done` on are newer than it invoked. */
  ghost predicate Covered<F, A>(regs: seq<Reg<F>>, done: nat, b: Batch<A>)
    requires done <= |regs|
  {
    && (forall i :: 0 <= i < done ==> regs[i].serial in b.skipped || regs[i].serial in b.calls)
    && (forall i :: done <= i < |regs| ==> regs[i].serial !in b.skipped)
    && (forall i, j :: done <= i < |regs| && 0 <= j < |b.calls| ==> b.calls[j] < regs[i].serial)
  }

  /** A batch that ran to its end invoked every survivor it was not told to skip exactly once, in order. */
  ghost predicate BatchOk<A>(b: Batch<A>, bound: nat) {
    && Increasing(b.calls)
    && (forall x :: x in b.calls ==> x < bound && x !in b.skipped)
    && (forall x :: x in b.skipped ==> x < bound)
    && (!b.replay ==> b.skipped == {})
    && (b.end.Ran? ==> Increasing(b.end.survivors))
    && (b.end.Ran? ==> forall x :: x in b.end.survivors ==> (x in b.calls <==> x !in b.skipped))
  }

  ghost function Flatten<A>(bs: seq<Batch<A>>): seq<Call<A>> {
    if bs == [] then []
    else
      var b := bs[|bs| - 1];
      Flatten(bs[..|bs| - 1]) + seq(|b.calls|, i requires 0 <= i < |b.calls| => Call(b.calls[i], b.args))
  }

  /** The arguments of the batches that a call of `fireWith` asked for. */
  ghost function Requested<A>(bs: seq<Batch<A>>): seq<A> {
    if bs == [] then []
    else Requested(bs[..|bs| - 1]) + (if bs[|bs| - 1].replay then [] else [bs[|bs| - 1].args])
  }

  ghost function Done<F, A>(m: State<F, A>): int {
    if m.running then m.firingIndex + 1 else m.firingIndex
  }

  /** What each operation relies on: while firing, `firingLength` is the list's length and `firingIndex` lies in it. */
  ghost predicate WellFormed<F, A>(m: State<F, A>) {
    && (m.running ==> m.firing)
    && (m.firing ==> m.fired && m.data.Some? && |m.batches| > 0)
    && (m.firing && m.list.Some? ==> m.firingLength == |m.list.value| && 0 <= Done(m) <= |m.list.value|)
    && m.firingStart == 0
  }

  ghost predicate LoopInv<F, A>(m: State<F, A>) {
    && WellFormed(m)
    && (m.firing ==> m.batches[|m.batches| - 1].args == m.data.value)
    && (m.firing && m.list.Some? ==> Covered(m.list.value, Done(m), m.batches[|m.batches| - 1]))
  }

  ghost predicate QueueInv<F, A>(m: State<F, A>) {
    && (m.options.once ==> m.stack.None?)
    && (m.list.None? ==> m.stack.None? && m.memory.None?)
    && (!m.fired ==> m.accepted == [] && m.batches == [] && m.memory.None?)
    && (m.stack.Some? && !m.firing ==> m.stack.value == [])
    && Requested(m.batches) <= m.accepted
    && (m.stack.Some? ==> m.accepted == Requested(m.batches) + m.stack.value)
  }

  ghost predicate MemoryInv<F, A>(m: State<F, A>) {
    && (m.memory.Some? ==>
          && m.options.memory && |m.batches| > 0 && m.memory.value == m.batches[|m.batches| - 1].args
          && !m.batches[|m.batches| - 1].end.Stopped?)
    && (forall i :: 0 <= i < |m.batches| && m.batches[i].replay ==>
          i > 0 && m.batches[i].args == m.batches[i - 1].args && !m.batches[i - 1].end.Stopped?)
    && (forall i :: 0 <= i < |m.batches| && m.batches[i].end.Stopped? ==> m.options.stopOnFalse)
  }

  ghost predicate ListInv<F>(list: Option<seq<Reg<F>>>, bound: nat) {
    list.Some? ==> Ordered(list.value) && AllBelow(list.value, bound)
  }

  /** Only the last batch may be open, while the list is firing. */
  ghost predicate BatchesInv<A>(bs: seq<Batch<A>>, bound: nat, firing: bool) {
    && (forall i :: 0 <= i < |bs| ==> BatchOk(bs[i], bound))
    && (forall i :: 0 <= i < |bs| ==> (bs[i].end.Open? <==> firing && i == |bs| - 1))
  }

  ghost predicate Inv<F, A>(m: State<F, A>) {
    && ListInv(m.list, m.nextSerial) && BatchesInv(m.batches, m.nextSerial, m.firing)
    && m.calls == Flatten(m.batches)
    && LoopInv(m) && QueueInv(m) && MemoryInv(m)
  }

  lemma InitInv<F, A>(options: Options)
    ensures Inv(Init<F, A>(options))
  {
  }

  // ---------- every operation keeps the invariant ----------

  lemma {:induction false} PushAllExtends<F, A>(m: State<F, A>, fns: seq<F>)
    requires m.list.Some?
    ensures var p := PushAll(m, fns);
      && m.list.value <= p.list.value && m.nextSerial <= p.nextSerial
      && (forall i :: |m.list.value| <= i < |p.list.value| ==> m.nextSerial <= p.list.value[i].serial < p.nextSerial)
      && (forall i, j :: |m.list.value| <= i < j < |p.list.value| ==> p.list.value[i].serial < p.list.value[j].serial)
    decreases |fns|
  {
    if fns != [] {
      if m.options.unique && Has(m.list.value, fns[0]) {
        PushAllExtends(m, fns[1..]);
      } else {
        PushAllExtends(m.(list := Some(m.list.value + [Reg(fns[0], m.nextSerial)]), nextSerial := m.nextSerial + 1),
            fns[1..]);
      }
    }
  }

  /** One more batch, in which nothing has been invoked yet. */
  lemma BatchesPush<A>(bs: seq<Batch<A>>, b: Batch<A>, bound: nat)
    requires BatchesInv(bs, bound, false) && BatchOk(b, bound) && b.end.Open? && b.calls == []
    ensures BatchesInv(bs + [b], bound, true) && Flatten(bs + [b]) == Flatten(bs)
    ensures Requested(bs + [b]) == Requested(bs) + (if b.replay then [] else [b.args])
  {
    hide BatchOk;
    assert (bs + [b])[..|bs|] == bs;
  }

  lemma BatchesLater<A>(bs: seq<Batch<A>>, bound: nat, later: nat, firing: bool)
    requires BatchesInv(bs, bound, firing) && bound <= later
    ensures BatchesInv(bs, later, firing)
  {
  }

  /** Another form of the last batch. */
  lemma BatchesLast<A>(bs: seq<Batch<A>>, b: Batch<A>, bound: nat, firing: bool, now: bool)
    requires bs != [] && BatchesInv(bs, bound, firing) && BatchOk(b, bound) && (b.end.Open? <==> now)
    ensures BatchesInv(bs[|bs| - 1 := b], bound, now)
  {
    hide BatchOk;
    var r := bs[|bs| - 1 := b];
    assert forall i :: 0 <= i < |bs| - 1 ==> r[i] == bs[i];
  }

  lemma StartedBatch<F, A>(regs: seq<Reg<F>>, start: nat, bound: nat, data: A, replay: bool)
    requires start <= |regs| && Ordered(regs) && AllBelow(regs, bound) && (!replay ==> start == 0)
    ensures var b := Batch(data, replay, SerialSet(regs[..start]), [], Open);
      BatchOk(b, bound) && Covered(regs, start, b)
  {
  }

  lemma {:induction false} StartFireInv<F, A>(m: State<F, A>, data: A, replay: bool)
    requires m.list.Some? && ListInv(m.list, m.nextSerial) && BatchesInv(m.batches, m.nextSerial, false)
    requires m.firingStart <= |m.list.value| && (!replay ==> m.firingStart == 0)
    requires m.calls == Flatten(m.batches) && MemoryInv(m)
    requires m.options.once ==> m.stack.None?
    requires replay ==> m.memory == Some(data)
    requires Requested(m.batches) + (if replay then [] else [data]) <= m.accepted
    requires m.stack.Some? ==> m.accepted == Requested(m.batches) + (if replay then [] else [data]) + m.stack.value
    ensures Inv(StartFire(m, data, replay))
  {
    hide Flatten, Requested, BatchOk, Covered, Ordered, AllBelow, BatchesInv, SerialSet;
    var b := Batch(data, replay, SerialSet(m.list.value[..m.firingStart]), [], Open);
    StartedBatch(m.list.value, m.firingStart, m.nextSerial, data, replay);
    BatchesPush(m.batches, b, m.nextSerial);
  }

  /** Entries pushed while a batch is firing are newer than anything it invoked. */
  lemma CoveredMore<F, A>(regs: seq<Reg<F>>, more: seq<Reg<F>>, done: nat, b: Batch<A>, bound: nat)
    requires done <= |regs| && regs <= more && Covered(regs, done, b) && BatchOk(b, bound)
    requires forall i :: |regs| <= i < |more| ==> bound <= more[i].serial
    ensures Covered(more, done, b)
  {
    assert forall i :: 0 <= i < |regs| ==> more[i] == regs[i];
    assert forall j :: 0 <= j < |b.calls| ==> b.calls[j] in b.calls;
  }

  lemma {:induction false} PushAllInv<F, A>(m: State<F, A>, fns: seq<F>)
    requires m.list.Some? && ListInv(m.list, m.nextSerial) && BatchesInv(m.batches, m.nextSerial, m.firing)
    ensures var p := PushAll(m, fns);
      && ListInv(p.list, p.nextSerial) && BatchesInv(p.batches, p.nextSerial, p.firing)
      && m.list.value <= p.list.value
      && forall i :: |m.list.value| <= i < |p.list.value| ==> m.nextSerial <= p.list.value[i].serial
  {
    hide PushAll, BatchesInv;
    PushAllExtends(m, fns);
    var p := PushAll(m, fns);
    BatchesLater(m.batches, m.nextSerial, p.nextSerial, m.firing);
    assert forall i :: 0 <= i < |m.list.value| ==> p.list.value[i] == m.list.value[i];
  }

  lemma {:induction false} AddWhileFiringInv<F, A>(m: State<F, A>, fns: seq<F>)
    requires Inv(m) && m.running && m.list.Some?
    ensures Inv(Add(m, fns))
  {
    hide Flatten, Requested, ListInv, PushAll, BatchOk, Covered;
    PushAllInv(m, fns);
    CoveredMore(m.list.value, PushAll(m, fns).list.value, Done(m), m.batches[|m.batches| - 1], m.nextSerial);
  }

  lemma {:induction false} AddInv<F, A>(m: State<F, A>, fns: seq<F>)
    requires Inv(m) && (m.firing ==> m.running)
    ensures Inv(Add(m, fns))
  {
    hide Flatten, Requested, ListInv, BatchesInv, PushAll, Covered;
    if m.list.Some? {
      if m.firing {
        AddWhileFiringInv(m, fns);
      } else {
        PushAllInv(m, fns);
        if m.memory.Some? {
          assert Requested(m.batches) + [] == Requested(m.batches);
          StartFireInv(PushAll(m, fns).(firingStart := |m.list.value|), m.memory.value, true);
        }
      }
    }
  }

  lemma {:induction false} WithoutSplit<F>(regs: seq<Reg<F>>, k: nat, fn: F)
    requires k <= |regs|
    ensures Without(regs[..k], fn) + Without(regs[k..], fn) == Without(regs, fn)
    decreases |regs|
  {
    if k == |regs| {
      assert regs[..k] == regs && regs[k..] == [];
    } else {
      var front := regs[..|regs| - 1];
      WithoutSplit(front, k, fn);
      assert front[..k] == regs[..k];
      assert regs[k..][..|regs| - k - 1] == front[k..];
    }
  }

  /** Removal keeps the other entries. */
  lemma {:induction false} WithoutIn<F>(regs: seq<Reg<F>>, fn: F)
    ensures forall i :: 0 <= i < |Without(regs, fn)| ==> Without(regs, fn)[i] in regs && Without(regs, fn)[i].fn != fn
    ensures forall i :: 0 <= i < |regs| && regs[i].fn != fn ==> regs[i] in Without(regs, fn)
  {
    if regs != [] {
      WithoutIn(regs[..|regs| - 1], fn);
      assert regs == regs[..|regs| - 1] + [regs[|regs| - 1]];
    }
  }

  /** Removal keeps the other entries, in their order. */
  lemma {:induction false} WithoutKeeps<F>(regs: seq<Reg<F>>, fn: F)
    requires Ordered(regs)
    ensures Ordered(Without(regs, fn))
    ensures forall i :: 0 <= i < |Without(regs, fn)| ==> Without(regs, fn)[i] in regs && Without(regs, fn)[i].fn != fn
    ensures forall i :: 0 <= i < |regs| && regs[i].fn != fn ==> regs[i] in Without(regs, fn)
    decreases |regs|
  {
    WithoutIn(regs, fn);
    if regs != [] {
      var front, last := regs[..|regs| - 1], regs[|regs| - 1];
      var left := Without(front, fn);
      assert Without(regs, fn) == if last.fn == fn then left else left + [last];
      WithoutKeeps(front, fn);
      hide Without;
      forall i | 0 <= i < |left|
        ensures left[i].serial < last.serial
      {
        var j :| 0 <= j < |front| && front[j] == left[i];
        assert regs[j].serial < last.serial;
      }
    }
  }

  lemma {:induction false} WithoutCovered<F, A>(regs: seq<Reg<F>>, k: nat, fn: F, b: Batch<A>)
    requires k <= |regs| && Ordered(regs) && Covered(regs, k, b)
    ensures var l, d := Without(regs, fn), |Without(regs[..k], fn)|;
      d <= |l| && Covered(l, d, b)
  {
    hide Without, Ordered;
    var l, before, after := Without(regs, fn), Without(regs[..k], fn), Without(regs[k..], fn);
    WithoutSplit(regs, k, fn);
    WithoutIn(regs[..k], fn);
    WithoutIn(regs[k..], fn);
    forall i | 0 <= i < |before|
      ensures l[i].serial in b.skipped || l[i].serial in b.calls
    {
      assert l[i] == before[i];
      var j :| 0 <= j < k && regs[..k][j] == before[i];
      assert regs[j] == l[i];
    }
    forall i | |before| <= i < |l|
      ensures l[i].serial !in b.skipped && forall j :: 0 <= j < |b.calls| ==> b.calls[j] < l[i].serial
    {
      assert l[i] == after[i - |before|];
      var j :| 0 <= j < |regs| - k && regs[k..][j] == after[i - |before|];
      assert regs[k + j] == l[i];
    }
  }

  lemma ListWithout<F>(regs: seq<Reg<F>>, fn: F, bound: nat)
    requires Ordered(regs) && AllBelow(regs, bound)
    ensures ListInv(Some(Without(regs, fn)), bound)
  {
    hide Without;
    WithoutKeeps(regs, fn);
    var l := Without(regs, fn);
    forall i | 0 <= i < |l|
      ensures l[i].serial < bound
    {
      var j :| 0 <= j < |regs| && regs[j] == l[i];
    }
  }

  lemma {:induction false} RemoveInv<F, A>(m: State<F, A>, fn: F)
    requires Inv(m) && (m.firing ==> m.running)
    ensures Inv(Remove(m, fn))
  {
    hide Flatten, Requested, BatchesInv, Covered, Without, Ordered, AllBelow;
    if m.list.Some? {
      ListWithout(m.list.value, fn, m.nextSerial);
      if m.firing {
        WithoutCovered(m.list.value, m.firingIndex + 1, fn, m.batches[|m.batches| - 1]);
      }
    }
  }

  lemma {:induction false} FireWithInv<F, A>(m: State<F, A>, args: A)
    requires Inv(m) && (m.firing ==> m.running)
    ensures Inv(FireWith(m, args))
  {
    hide Flatten, Requested, BatchesInv, Covered, ListInv, StartFire;
    if Accepts(m) && !m.firing {
      StartFireInv(m.(accepted := m.accepted + [args]), args, false);
    }
  }

  /** The batch after the entry under its index has been invoked. */
  lemma CoveredNext<F, A>(regs: seq<Reg<F>>, i: nat, b: Batch<A>, bound: nat)
    requires i < |regs| && Ordered(regs) && AllBelow(regs, bound) && Covered(regs, i, b) && BatchOk(b, bound)
    requires b.end.Open?
    ensures var c := b.(calls := b.calls + [regs[i].serial]); Covered(regs, i + 1, c) && BatchOk(c, bound)
  {
    var serial := regs[i].serial;
    var c := b.(calls := b.calls + [serial]);
    assert c.calls[|b.calls|] == serial && forall j :: 0 <= j < |b.calls| ==> c.calls[j] == b.calls[j];
    assert forall x :: x in c.calls <==> x in b.calls || x == serial;
  }

  lemma FlattenLast<A>(bs: seq<Batch<A>>, serial: nat)
    requires bs != []
    ensures var n := |bs| - 1; var r := bs[n := bs[n].(calls := bs[n].calls + [serial])];
      Flatten(r) == Flatten(bs) + [Call(serial, bs[n].args)] && Requested(r) == Requested(bs)
  {
    var n := |bs| - 1;
    var b := bs[n];
    var c := b.(calls := b.calls + [serial]);
    var r := bs[n := c];
    assert r[..n] == bs[..n];
    var bc := seq(|b.calls|, i requires 0 <= i < |b.calls| => Call(b.calls[i], b.args));
    var cc := seq(|c.calls|, i requires 0 <= i < |c.calls| => Call(c.calls[i], c.args));
    assert cc == bc + [Call(serial, b.args)];
    assert Flatten(bs[..n]) + (bc + [Call(serial, b.args)]) == (Flatten(bs[..n]) + bc) + [Call(serial, b.args)];
  }

  lemma {:induction false} InvokeInv<F, A>(m: State<F, A>)
    requires Inv(m) && m.firing && !m.running && m.list.Some? && m.firingIndex < m.firingLength
    ensures Inv(LoopStep(m))
  {
    hide Flatten, Requested, BatchOk, Covered, Ordered, AllBelow;
    var b, serial := m.batches[|m.batches| - 1], m.list.value[m.firingIndex].serial;
    CoveredNext(m.list.value, m.firingIndex, b, m.nextSerial);
    FlattenLast(m.batches, serial);
    BatchesLast(m.batches, b.(calls := b.calls + [serial]), m.nextSerial, true, true);
    hide BatchesInv;
  }

  lemma {:induction false} EndBatchOk<F, A>(m: State<F, A>)
    requires Inv(m) && m.firing && !m.running && m.list.Some? && m.firingIndex >= m.firingLength
    ensures BatchOk(m.batches[|m.batches| - 1].(end := Ran(Serials(m.list.value))), m.nextSerial)
  {
    var b := m.batches[|m.batches| - 1];
    assert BatchOk(b, m.nextSerial);
    assert Covered(m.list.value, |m.list.value|, b);
    var ss := Serials(m.list.value);
    assert forall i :: 0 <= i < |ss| ==> ss[i] == m.list.value[i].serial;
  }

  lemma CutBatchOk<A>(b: Batch<A>, bound: nat)
    requires BatchOk(b, bound)
    ensures BatchOk(b.(end := Cut), bound) && BatchOk(b.(end := Stopped), bound)
  {
  }

  lemma {:induction false} ReplaceLastBatch<A>(bs: seq<Batch<A>>, end: End)
    requires bs != []
    ensures var n := |bs| - 1; var r := bs[n := bs[n].(end := end)];
      Flatten(r) == Flatten(bs) && Requested(r) == Requested(bs)
  {
    var n := |bs| - 1;
    var r := bs[n := bs[n].(end := end)];
    assert r[..n] == bs[..n];
  }

  /** Leaving the loop keeps the invariant, however the batch ended. */
  lemma {:induction false} AfterLoopInv<F, A>(m: State<F, A>, end: End)
    requires ListInv(m.list, m.nextSerial) && BatchesInv(m.batches, m.nextSerial, true)
    requires m.firing && !m.running && m.fired && |m.batches| > 0 && m.firingStart == 0
    requires !end.Open? && BatchOk(m.batches[|m.batches| - 1].(end := end), m.nextSerial)
    requires end.Stopped? ==> m.memory.None? && m.options.stopOnFalse
    requires m.calls == Flatten(m.batches) && QueueInv(m) && MemoryInv(m)
    ensures Inv(AfterLoop(m, end))
  {
    hide Flatten, Requested, BatchOk, Covered, BatchesInv, StartFire;
    var n := |m.batches| - 1;
    ReplaceLastBatch(m.batches, end);
    BatchesLast(m.batches, m.batches[n].(end := end), m.nextSerial, true, false);
    var ended := m.(firing := false, batches := m.batches[n := m.batches[n].(end := end)]);
    assert MemoryInv(ended);
    if m.list.Some? && m.stack.Some? && |m.stack.value| > 0 {
      assert m.stack.value == [m.stack.value[0]] + m.stack.value[1..];
      StartFireInv(ended.(stack := Some(m.stack.value[1..])), m.stack.value[0], false);
    } else if m.list.Some? && m.stack.Some? {
      assert m.stack.value == [];
    }
  }

  lemma {:induction false} EndInv<F, A>(m: State<F, A>)
    requires Inv(m) && m.firing && !m.running && !(m.list.Some? && m.firingIndex < m.firingLength)
    ensures Inv(LoopStep(m))
  {
    hide Flatten, BatchOk, Covered, AfterLoop, QueueInv, MemoryInv;
    if m.list.Some? { EndBatchOk(m); } else { CutBatchOk(m.batches[|m.batches| - 1], m.nextSerial); }
    AfterLoopInv(m, if m.list.Some? then Ran(Serials(m.list.value)) else Cut);
  }

  lemma {:induction false} StopInv<F, A>(m: State<F, A>)
    requires Inv(m) && m.running && m.options.stopOnFalse
    ensures Inv(ReturnFalse(m))
  {
    hide Flatten, BatchOk, Covered, AfterLoop;
    CutBatchOk(m.batches[|m.batches| - 1], m.nextSerial);
    AfterLoopInv(m.(running := false, memory := None), Stopped);
  }

  /** Operations that change no more than the list, what is waiting and what is memorised. */
  lemma PlainInv<F, A>(m: State<F, A>, a: Action<F, A>)
    requires Inv(m) && Enabled(m, a) && (a.DoDisable? || a.DoLock? || a.DoEmpty? || a.DoReturn?)
    ensures Inv(Step(m, a)) && Step(m, a).options == m.options
  {
    hide Flatten, Requested, BatchesInv, Covered, Remove, FireWith, Add, LoopStep, ReturnFalse;
  }

  /** Whatever user code does, at whatever moment it has control, the list stays consistent. */
  lemma {:induction false} StepInv<F, A>(m: State<F, A>, a: Action<F, A>)
    requires Inv(m) && Enabled(m, a)
    ensures Inv(Step(m, a)) && Step(m, a).options == m.options
  {
    hide Inv;
    match a
    case DoAdd(fns) => AddInv(m, fns);
    case DoRemove(fn) => RemoveInv(m, fn);
    case DoFire(args) => FireWithInv(m, args);
    case DoLoop =>
      if m.list.Some? && m.firingIndex < m.firingLength { InvokeInv(m); } else { EndInv(m); }
    case DoReturnFalse => if m.options.stopOnFalse { StopInv(m); } else { PlainInv(m, DoReturn); }
    case _ => PlainInv(m, a);
  }

  // ---------- what the invariant means for whole runs ----------

  /** The elements of `s` that are in `keep`, in their order. */
  ghost function Restrict(s: seq<nat>, keep: iset<nat>): seq<nat> {
    if s == [] then []
    else Restrict(s[..|s| - 1], keep) + (if s[|s| - 1] in keep then [s[|s| - 1]] else [])
  }

  lemma {:induction false} RestrictIncreasing(s: seq<nat>, keep: iset<nat>)
    requires Increasing(s)
    ensures Increasing(Restrict(s, keep))
    ensures forall x :: x in Restrict(s, keep) <==> x in s && x in keep
  {
    if s != [] {
      var front := s[..|s| - 1];
      RestrictIncreasing(front, keep);
      assert s == front + [s[|s| - 1]];
      var r := Restrict(front, keep);
      forall i | 0 <= i < |r|
        ensures r[i] < s[|s| - 1]
      {
        assert r[i] in r && r[i] in front;
        var j :| 0 <= j < |front| && front[j] == r[i];
        assert s[j] == r[i];
      }
    }
  }

  lemma FirstIn(s: seq<nat>)
    requires |s| > 0
    ensures s[0] in s
  {
  }

  /** Two increasing sequences with the same elements are the same sequence. */
  lemma {:induction false} IncreasingUnique(s: seq<nat>, t: seq<nat>)
    requires Increasing(s) && Increasing(t) && forall x :: x in s <==> x in t
    ensures s == t
  {
    if s == [] {
      if |t| > 0 {
        FirstIn(t);
        assert false;
      }
    } else {
      assert s[|s| - 1] in t;
      assert t[|t| - 1] in s;
      var s', t' := s[..|s| - 1], t[..|t| - 1];
      assert s == s' + [s[|s| - 1]] && t == t' + [t[|t| - 1]];
      assert s[|s| - 1] == t[|t| - 1];
      forall x
        ensures x in s' <==> x in t'
      {
        if x in s' { assert x in s && x < s[|s| - 1]; }
        if x in t' { assert x in t && x < t[|t| - 1]; }
      }
      IncreasingUnique(s', t');
    }
  }

  /**
   * In every run, whatever was added or removed while a batch was firing: when the batch runs to
   * its end, its invocations restricted to the callbacks still in the list are exactly the list,
   * in list order, from the entry where the batch was told to start.  No surviving callback is
   * missed and none is invoked twice.
   */
  lemma {:induction false} SurvivorsInvokedOnce<F, A>(options: Options, acts: seq<Action<F, A>>, k: nat)
    requires k < |Exec(options, acts).batches| && Exec(options, acts).batches[k].end.Ran?
    ensures var b := Exec(options, acts).batches[k];
      Restrict(b.calls, iset x | x in b.end.survivors) == Restrict(b.end.survivors, iset x | x !in b.skipped)
  {
    var b := Exec(options, acts).batches[k];
    assert BatchOk(b, Exec(options, acts).nextSerial);
    RestrictIncreasing(b.calls, iset x | x in b.end.survivors);
    RestrictIncreasing(b.end.survivors, iset x | x !in b.skipped);
    IncreasingUnique(Restrict(b.calls, iset x | x in b.end.survivors),
        Restrict(b.end.survivors, iset x | x !in b.skipped));
  }

  /** A batch that `fireWith` asked for starts at the first entry, so it invokes all of the survivors. */
  lemma {:induction false} RequestedBatchInvokesAll<F, A>(options: Options, acts: seq<Action<F, A>>, k: nat)
    requires k < |Exec(options, acts).batches|
    requires var b := Exec(options, acts).batches[k]; b.end.Ran? && !b.replay
    ensures var b := Exec(options, acts).batches[k];
      Restrict(b.calls, iset x | x in b.end.survivors) == b.end.survivors
  {
    var b := Exec(options, acts).batches[k];
    assert BatchOk(b, Exec(options, acts).nextSerial);
    SurvivorsInvokedOnce(options, acts, k);
    RestrictIncreasing(b.end.survivors, iset x | x !in b.skipped);
    IncreasingUnique(Restrict(b.end.survivors, iset x | x !in b.skipped), b.end.survivors);
  }

  /**
   * A batch that a callback stopped by returning false, which only `stopOnFalse` allows, is not replayed to
   * callbacks added later: that begins again with the next request.
   */
  lemma StoppedNotReplayed<F, A>(options: Options, acts: seq<Action<F, A>>, k: nat)
    requires k < |Exec(options, acts).batches| && Exec(options, acts).batches[k].end.Stopped?
    ensures var bs := Exec(options, acts).batches;
      options.stopOnFalse && (k + 1 < |bs| ==> !bs[k + 1].replay)
  {
    var m := Exec(options, acts);
    assert MemoryInv(m);
    if k + 1 < |m.batches| { assert m.batches[k + 1 - 1] == m.batches[k]; }
  }

  /**
   * `empty` inside a callback leaves the loop's end where it was: the loop goes on to an entry that is not
   * there if and only if the running callback was not the last one.
   */
  lemma EmptyWhileFiring<F, A>(m: State<F, A>)
    requires Inv(m) && m.running && m.list.Some?
    ensures var r := Return(Empty(m));
      r.list == Some([]) && (r.firingIndex < r.firingLength <==> Done(m) < |m.list.value|)
  {
  }

  /** The shortest such run: the first of two callbacks is running, and calls `empty`. */
  lemma EmptiedTooSoon<F, A>(f: F, g: F, args: A)
    ensures var m := Exec(Options(false, false, false, false), [DoAdd([f, g]), DoFire(args), DoLoop]);
      m.running && m.list.Some? && Done(m) < |m.list.value|
      && Return(Empty(m)).list == Some([]) && Return(Empty(m)).firingIndex < Return(Empty(m)).firingLength
  {
    hide *;
    var options := Options(false, false, false, false);
    var add, fire, turn := DoAdd([f, g]), DoFire(args), DoLoop;
    assert [] + [add] == [add] && [add] + [fire] == [add, fire] && [add, fire] + [turn] == [add, fire, turn];
    ExecNext(options, [], add);
    ExecNext(options, [add], fire);
    ExecNext(options, [add, fire], turn);
    FirstOfTwo(Exec<F, A>(options, []), f, g, args);
    EmptyWhileFiring(Exec(options, [add, fire, turn]));
  }

  lemma ExecNext<F, A>(options: Options, acts: seq<Action<F, A>>, a: Action<F, A>)
    ensures acts == [] ==> Exec(options, acts) == Init<F, A>(options)
    ensures var m := Exec(options, acts);
      && Inv(m) && Inv(Exec(options, acts + [a]))
      && (Enabled(m, a) ==> Exec(options, acts + [a]) == Step(m, a))
  {
    assert (acts + [a])[..|acts|] == acts;
    hide Inv, Step, Enabled;
  }

  lemma FirstOfTwo<F, A>(m: State<F, A>, f: F, g: F, args: A)
    requires m == Init(m.options) && Inv(m) && !m.options.unique
    ensures Enabled(m, DoAdd([f, g]))
    ensures var added := Step(m, DoAdd([f, g]));
      Inv(added) && Enabled(added, DoFire(args)) && Inv(Step(added, DoFire(args)))
      && Enabled(Step(added, DoFire(args)), DoLoop)
      && var r := Step(Step(added, DoFire(args)), DoLoop); r.running && r.list.Some? && Done(r) < |r.list.value|
  {
    hide Inv, SerialSet;
    TwoPushed(m, f, g);
    StepInv(m, DoAdd([f, g]));
    StepInv(Step(m, DoAdd([f, g])), DoFire(args));
  }

  lemma TwoPushed<F, A>(m: State<F, A>, f: F, g: F)
    requires m.list == Some([]) && !m.options.unique
    ensures PushAll(m, [f, g]).list == Some([Reg(f, m.nextSerial), Reg(g, m.nextSerial + 1)])
  {
    var one := m.(list := Some([Reg(f, m.nextSerial)]), nextSerial := m.nextSerial + 1);
    assert [f, g][1..] == [g] && [] + [Reg(f, m.nextSerial)] == [Reg(f, m.nextSerial)];
    var two := one.(list := Some(one.list.value + [Reg(g, one.nextSerial)]), nextSerial := one.nextSerial + 1);
    assert PushAll(m, [f, g]) == PushAll(one, [g]);
    assert [g][1..] == [] && PushAll(one, [g]) == PushAll(two, []);
    assert two.list.value == [Reg(f, m.nextSerial), Reg(g, m.nextSerial + 1)];
  }

  /** The number of invocations in the first `k` batches. */
  ghost function CallCount<A>(bs: seq<Batch<A>>): nat {
    if bs == [] then 0 else CallCount(bs[..|bs| - 1]) + |bs[|bs| - 1].calls|
  }

  lemma {:induction false} FlattenAt<A>(bs: seq<Batch<A>>, k: nat)
    requires k < |bs|
    ensures CallCount(bs[..k]) + |bs[k].calls| <= |Flatten(bs)|
    ensures forall i :: 0 <= i < |bs[k].calls| ==>
      Flatten(bs)[CallCount(bs[..k]) + i] == Call(bs[k].calls[i], bs[k].args)
  {
    var front := bs[..|bs| - 1];
    FlattenCount(front);
    if k == |bs| - 1 {
      assert bs[..k] == front;
    } else {
      FlattenAt(front, k);
      assert front[..k] == bs[..k];
    }
  }

  lemma {:induction false} FlattenCount<A>(bs: seq<Batch<A>>)
    ensures |Flatten(bs)| == CallCount(bs)
  {
    if bs != [] { FlattenCount(bs[..|bs| - 1]); }
  }

  /**
   * Nested fires are delivered as whole batches, first come first served: batch `k` occupies one
   * contiguous stretch of the invocations of the run, all with its own arguments, and the requests
   * delivered so far are the first ones accepted, the rest waiting on the stack.  Once the list is
   * idle and was never locked or disabled, nothing is waiting.
   */
  lemma {:induction false} BatchesInRequestOrder<F, A>(options: Options, acts: seq<Action<F, A>>, k: nat)
    requires k < |Exec(options, acts).batches|
    ensures var m := Exec(options, acts);
      && (var at, b := CallCount(m.batches[..k]), m.batches[k];
          && at + |b.calls| <= |m.calls|
          && forall i :: 0 <= i < |b.calls| ==> m.calls[at + i] == Call(b.calls[i], b.args))
      && |m.calls| == CallCount(m.batches)
      && Requested(m.batches) <= m.accepted
      && (m.stack.Some? && !m.firing ==> Requested(m.batches) == m.accepted)
  {
    hide Exec, Flatten, Requested, CallCount, BatchesInv, ListInv, Covered;
    var m := Exec(options, acts);
    FlattenAt(m.batches, k);
    FlattenCount(m.batches);
  }

  // ---------- runs, told from the actions alone ----------

  /**
   * What decides whether a request is taken: `open` as long as a list that may be fired again was neither locked
   * nor disabled, `fired` from the first request taken, `dead` while a list that was never fired is disabled.
   */
  datatype Gate = Gate(open: bool, fired: bool, dead: bool)

  ghost function Takes(g: Gate): bool {
    if g.fired then g.open else !g.dead
  }

  ghost function GateAfter<F, A>(g: Gate, a: Action<F, A>): Gate {
    match a
    case DoFire(_) => if Takes(g) then g.(fired := true) else g
    case DoDisable => g.(open := false, dead := true)
    case DoLock => g.(open := false, dead := g.dead || !g.fired)
    case DoEmpty => g.(dead := false)
    case _ => g
  }

  /** The gate and the requests taken after the actions that were enabled. */
  ghost function GateOf<F, A>(options: Options, acts: seq<Action<F, A>>): Gate {
    if acts == [] then Gate(!options.once, false, false)
    else
      var n := |acts| - 1;
      var g := GateOf(options, acts[..n]);
      if Enabled(Exec(options, acts[..n]), acts[n]) then GateAfter(g, acts[n]) else g
  }

  ghost function Taken<F, A>(options: Options, acts: seq<Action<F, A>>): seq<A> {
    if acts == [] then []
    else
      var n := |acts| - 1;
      Taken(options, acts[..n])
      + if acts[n].DoFire? && Enabled(Exec(options, acts[..n]), acts[n]) && Takes(GateOf(options, acts[..n]))
          then [acts[n].args] else []
  }

  ghost predicate GateOk<F, A>(m: State<F, A>, g: Gate) {
    && m.fired == g.fired && (!m.fired ==> (m.list.None? <==> g.dead))
    && (g.open <==> m.stack.Some?)
  }

  lemma GateStep<F, A>(m: State<F, A>, a: Action<F, A>, g: Gate)
    requires Inv(m) && Enabled(m, a) && GateOk(m, g)
    ensures GateOk(Step(m, a), GateAfter(g, a))
    ensures Step(m, a).accepted == m.accepted + if a.DoFire? && Takes(g) then [a.args] else []
  {
    hide Flatten, Requested, BatchesInv, ListInv, Covered, Serials, SerialSet, Without, PushAll;
    if a.DoAdd? && m.list.Some? { PushAllExtends(m, a.fns); }
  }

  /** The requests accepted are those that the actions say are taken. */
  lemma {:induction false} AcceptedAreTaken<F, A>(options: Options, acts: seq<Action<F, A>>)
    ensures Exec(options, acts).accepted == Taken(options, acts) && GateOk(Exec(options, acts), GateOf(options, acts))
  {
    hide Inv, Step, Enabled, GateOk, GateAfter, Takes;
    if acts == [] {
      InitGate<F, A>(options);
    } else {
      var n := |acts| - 1;
      AcceptedAreTaken(options, acts[..n]);
      if Enabled(Exec(options, acts[..n]), acts[n]) {
        GateStep(Exec(options, acts[..n]), acts[n], GateOf(options, acts[..n]));
      }
    }
  }

  lemma InitGate<F, A>(options: Options)
    ensures GateOk(Init<F, A>(options), Gate(!options.once, false, false)) && Init<F, A>(options).accepted == []
  {
  }

  /** The requests made, taken or not. */
  ghost function Requests<F, A>(options: Options, acts: seq<Action<F, A>>): seq<A> {
    if acts == [] then []
    else
      var n := |acts| - 1;
      Requests(options, acts[..n])
      + if acts[n].DoFire? && Enabled(Exec(options, acts[..n]), acts[n]) then [acts[n].args] else []
  }

  /** No action locks or disables the list. */
  ghost predicate LeftOpen<F, A>(acts: seq<Action<F, A>>) {
    forall i :: 0 <= i < |acts| ==> !acts[i].DoDisable? && !acts[i].DoLock?
  }

  lemma ScanNext<F, A>(options: Options, acts: seq<Action<F, A>>)
    requires acts != []
    ensures var n := |acts| - 1;
      var a, g, on := acts[n], GateOf(options, acts[..n]), Enabled(Exec(options, acts[..n]), acts[n]);
      && GateOf(options, acts) == (if on then GateAfter(g, a) else g)
      && Taken(options, acts) == Taken(options, acts[..n]) + (if on && a.DoFire? && Takes(g) then [a.args] else [])
      && Requests(options, acts) == Requests(options, acts[..n]) + (if on && a.DoFire? then [a.args] else [])
  {
    hide Exec, Enabled, GateAfter, Takes;
  }

  lemma {:induction false} OpenTakes<F, A>(options: Options, acts: seq<Action<F, A>>)
    requires LeftOpen(acts)
    ensures var g, asked, taken := GateOf(options, acts), Requests(options, acts), Taken(options, acts);
      && g == Gate(!options.once, asked != [], false)
      && taken == if options.once && |asked| > 1 then asked[..1] else asked
  {
    if acts != [] {
      var n := |acts| - 1;
      assert LeftOpen(acts[..n]) && !acts[n].DoDisable? && !acts[n].DoLock?;
      OpenTakes(options, acts[..n]);
      ScanNext(options, acts);
      hide *;
      OpenNext(options, acts[n], Enabled(Exec(options, acts[..n]), acts[n]), Requests(options, acts[..n]));
    }
  }

  /** What one more action adds to the requests and to those taken, of a list left open. */
  lemma OpenNext<F, A>(options: Options, a: Action<F, A>, on: bool, asked: seq<A>)
    requires !a.DoDisable? && !a.DoLock?
    ensures var g := Gate(!options.once, asked != [], false);
      var taken := if options.once && |asked| > 1 then asked[..1] else asked;
      var more := asked + if on && a.DoFire? then [a.args] else [];
      && (if on then GateAfter(g, a) else g) == Gate(!options.once, more != [], false)
      && taken + (if on && a.DoFire? && Takes(g) then [a.args] else [])
         == if options.once && |more| > 1 then more[..1] else more
  {
    if on && a.DoFire? && asked != [] { assert (asked + [a.args])[..1] == asked[..1]; }
  }

  /**
   * A list that is neither locked nor disabled takes every request made, also one made while it is firing, or only
   * the first one if it is a `once` list; once it is idle, it has delivered exactly those, in that order.
   */
  lemma AllRequestsDelivered<F, A>(options: Options, acts: seq<Action<F, A>>)
    requires LeftOpen(acts)
    ensures var m, asked := Exec(options, acts), Requests(options, acts);
      && m.accepted == (if options.once && |asked| > 1 then asked[..1] else asked)
      && (!options.once && !m.firing ==> Requested(m.batches) == asked)
  {
    hide Exec, Enabled, Requests, Taken, Requested, Flatten, BatchesInv, LoopInv, ListInv, MemoryInv;
    AcceptedAreTaken(options, acts);
    OpenTakes(options, acts);
    var m := Exec(options, acts);
    assert Requested(m.batches) + [] == Requested(m.batches);
  }

  /** After a lock or `disable` nothing more is taken, unless a list that was never fired is revived by `empty`. */
  lemma {:induction false} NothingTakenAfter<F, A>(options: Options, acts: seq<Action<F, A>>, n: nat)
    requires n < |acts| && (acts[n].DoLock? || acts[n].DoDisable?) && Enabled(Exec(options, acts[..n]), acts[n])
    requires Exec(options, acts[..n]).fired || forall i :: n < i < |acts| ==> !acts[i].DoEmpty?
    ensures Exec(options, acts).accepted == Exec(options, acts[..n]).accepted
  {
    AcceptedAreTaken(options, acts);
    AcceptedAreTaken(options, acts[..n]);
    ShutTakes(options, acts, n);
  }

  lemma {:induction false} ShutTakes<F, A>(options: Options, acts: seq<Action<F, A>>, n: nat)
    requires n < |acts| && (acts[n].DoLock? || acts[n].DoDisable?) && Enabled(Exec(options, acts[..n]), acts[n])
    requires GateOf(options, acts[..n]).fired || forall i :: n < i < |acts| ==> !acts[i].DoEmpty?
    ensures var g := GateOf(options, acts); !g.open && !Takes(g) && g.fired == GateOf(options, acts[..n]).fired
    ensures Taken(options, acts) == Taken(options, acts[..n])
    decreases |acts|
  {
    hide Exec, Enabled, GateOf, Taken, Requests;
    var k := |acts| - 1;
    ScanNext(options, acts);
    if n < k {
      assert acts[..k][..n] == acts[..n];
      ShutTakes(options, acts[..k], n);
      assert Taken(options, acts[..n]) + [] == Taken(options, acts[..n]);
    }
  }

  // ---------- what the list holds ----------

  function Fns<F>(regs: seq<Reg<F>>): (fns: seq<F>)
    ensures |fns| == |regs|
  {
    seq(|regs|, i requires 0 <= i < |regs| => regs[i].fn)
  }

  ghost function Joined<F>(fns: seq<F>, more: seq<F>, unique: bool): seq<F>
    decreases |more|
  {
    if more == [] then fns
    else Joined(if unique && more[0] in fns then fns else fns + [more[0]], more[1..], unique)
  }

  ghost function Cleared<F>(fns: seq<F>, fn: F): seq<F> {
    if fns == [] then []
    else Cleared(fns[..|fns| - 1], fn) + if fns[|fns| - 1] == fn then [] else [fns[|fns| - 1]]
  }

  /** What was added and not removed since. */
  ghost function Contents<F, A>(options: Options, acts: seq<Action<F, A>>): seq<F> {
    if acts == [] then []
    else
      var n := |acts| - 1;
      var fns := Contents(options, acts[..n]);
      if !Enabled(Exec(options, acts[..n]), acts[n]) then fns
      else
        match acts[n]
        case DoAdd(more) => Joined(fns, more, options.unique)
        case DoRemove(fn) => Cleared(fns, fn)
        case DoEmpty => []
        case _ => fns
  }

  lemma {:induction false} PushAllJoins<F, A>(m: State<F, A>, fns: seq<F>)
    requires m.list.Some?
    ensures Fns(PushAll(m, fns).list.value) == Joined(Fns(m.list.value), fns, m.options.unique)
    decreases |fns|
  {
    if fns != [] {
      var regs := m.list.value;
      assert Has(regs, fns[0]) <==> fns[0] in Fns(regs) by {
        assert forall i :: 0 <= i < |regs| ==> Fns(regs)[i] == regs[i].fn;
      }
      if m.options.unique && Has(regs, fns[0]) {
        PushAllJoins(m, fns[1..]);
      } else {
        var more := regs + [Reg(fns[0], m.nextSerial)];
        assert Fns(more) == Fns(regs) + [fns[0]];
        PushAllJoins(m.(list := Some(more), nextSerial := m.nextSerial + 1), fns[1..]);
      }
    }
  }

  lemma {:induction false} WithoutClears<F>(regs: seq<Reg<F>>, fn: F)
    ensures Fns(Without(regs, fn)) == Cleared(Fns(regs), fn)
  {
    if regs != [] {
      var n := |regs| - 1;
      WithoutClears(regs[..n], fn);
      assert Fns(regs)[..n] == Fns(regs[..n]);
      var left := Without(regs[..n], fn);
      assert Fns(left + [regs[n]]) == Fns(left) + [regs[n].fn];
    }
  }

  lemma ListStays<F, A>(m: State<F, A>, a: Action<F, A>)
    requires Inv(m) && Enabled(m, a) && m.list.Some? && m.stack.Some? && !a.DoDisable? && !a.DoLock?
    ensures var r := Step(m, a);
      && r.stack.Some? && r.list.Some?
      && Fns(r.list.value) ==
           match a
           case DoAdd(more) => Joined(Fns(m.list.value), more, m.options.unique)
           case DoRemove(fn) => Cleared(Fns(m.list.value), fn)
           case DoEmpty => []
           case _ => Fns(m.list.value)
  {
    hide Flatten, Requested, BatchesInv, ListInv, Covered, Serials, SerialSet, Without, PushAll, Fns, Joined, Cleared;
    match a
    case DoAdd(more) =>
      PushAllExtends(m, more);
      PushAllJoins(m, more);
    case DoRemove(fn) => WithoutClears(m.list.value, fn);
    case DoEmpty => assert |Fns<F>([])| == 0;
    case _ =>
  }

  /** A list that is not `once`, and neither locked nor disabled, holds what was added and not removed since. */
  lemma {:induction false} ListHolds<F, A>(options: Options, acts: seq<Action<F, A>>)
    requires !options.once && LeftOpen(acts)
    ensures var m := Exec(options, acts);
      m.stack.Some? && m.list.Some? && Fns(m.list.value) == Contents(options, acts)
  {
    hide Inv, Step, Enabled, Fns;
    if acts == [] {
      assert |Fns<F>([])| == 0;
    } else {
      var n := |acts| - 1;
      ListHolds(options, acts[..n]);
      if Enabled(Exec(options, acts[..n]), acts[n]) { ListStays(Exec(options, acts[..n]), acts[n]); }
    }
  }

  // ---------- what is memorised reaches everyone ----------

  /** The entry was invoked with these arguments. */
  ghost predicate Heard<A>(bs: seq<Batch<A>>, serial: nat, args: A) {
    exists k :: 0 <= k < |bs| && serial in bs[k].calls && bs[k].args == args
  }

  ghost predicate AllHeard<F, A>(bs: seq<Batch<A>>, regs: seq<Reg<F>>, args: A) {
    forall i :: 0 <= i < |regs| ==> Heard(bs, regs[i].serial, args)
  }

  ghost predicate SkippedHeard<F, A>(bs: seq<Batch<A>>, regs: seq<Reg<F>>, skipped: set<nat>, args: A) {
    forall i :: 0 <= i < |regs| && regs[i].serial in skipped ==> Heard(bs, regs[i].serial, args)
  }

  /** An idle list that memorises has invoked all its entries with what it memorises. */
  ghost predicate MemoryHeard<F, A>(m: State<F, A>)
    requires WellFormed(m)
  {
    m.options.memory && m.list.Some? ==>
      && (m.firing ==>
            && (m.memory.Some? ==> m.memory == m.data)
            && SkippedHeard(m.batches, m.list.value, m.batches[|m.batches| - 1].skipped, m.data.value))
      && (!m.firing && m.memory.Some? ==> AllHeard(m.batches, m.list.value, m.memory.value))
  }

  lemma HeardLater<A>(bs: seq<Batch<A>>, more: seq<Batch<A>>, serial: nat, args: A)
    requires Heard(bs, serial, args) && |bs| <= |more|
    requires forall k :: 0 <= k < |bs| ==> bs[k].args == more[k].args && bs[k].calls <= more[k].calls
    ensures Heard(more, serial, args)
  {
    var k :| 0 <= k < |bs| && serial in bs[k].calls && bs[k].args == args;
    var j :| 0 <= j < |bs[k].calls| && bs[k].calls[j] == serial;
    assert more[k].calls[j] == serial;
  }

  lemma StartHeard<F, A>(m: State<F, A>, data: A, replay: bool)
    requires m.list.Some? && m.firingStart <= |m.list.value|
    requires AllHeard(m.batches, m.list.value[..m.firingStart], data)
    ensures WellFormed(StartFire(m, data, replay)) && MemoryHeard(StartFire(m, data, replay))
  {
    hide Heard;
    var r, regs := StartFire(m, data, replay), m.list.value;
    forall i | 0 <= i < |regs| && regs[i].serial in SerialSet(regs[..m.firingStart])
      ensures Heard(r.batches, regs[i].serial, data)
    {
      var j :| 0 <= j < m.firingStart && regs[..m.firingStart][j].serial == regs[i].serial;
      HeardLater(m.batches, r.batches, regs[i].serial, data);
    }
  }

  /** The batches after a change of the last one that keeps what it has invoked. */
  lemma AllHeardLast<F, A>(bs: seq<Batch<A>>, b: Batch<A>, regs: seq<Reg<F>>, args: A)
    requires bs != [] && b.args == bs[|bs| - 1].args && bs[|bs| - 1].calls <= b.calls
    ensures AllHeard(bs, regs, args) ==> AllHeard(bs[|bs| - 1 := b], regs, args)
    ensures forall skipped :: SkippedHeard(bs, regs, skipped, args) ==>
              SkippedHeard(bs[|bs| - 1 := b], regs, skipped, args)
  {
    hide Heard;
    forall serial | Heard(bs, serial, args)
      ensures Heard(bs[|bs| - 1 := b], serial, args)
    {
      HeardLater(bs, bs[|bs| - 1 := b], serial, args);
    }
  }

  lemma AfterLoopHeard<F, A>(m: State<F, A>, end: End)
    requires m.firingStart == 0 && |m.batches| > 0 && m.fired && !m.running && m.data.Some?
    requires m.options.memory && m.list.Some? && m.memory.Some? ==>
      AllHeard(m.batches, m.list.value, m.memory.value)
    ensures WellFormed(AfterLoop(m, end)) && MemoryHeard(AfterLoop(m, end))
  {
    hide StartFire, SkippedHeard, Heard, MemoryHeard;
    var b := m.batches[|m.batches| - 1].(end := end);
    if m.list.Some? {
      if m.memory.Some? { AllHeardLast(m.batches, b, m.list.value, m.memory.value); }
      if m.stack.Some? && |m.stack.value| > 0 {
        var next := m.(firing := false, batches := m.batches[|m.batches| - 1 := b], stack := Some(m.stack.value[1..]));
        StartHeard(next, m.stack.value[0], false);
      } else {
        IdleHeard(AfterLoop(m, end));
      }
    } else {
      IdleHeard(AfterLoop(m, end));
    }
  }

  lemma IdleHeard<F, A>(m: State<F, A>)
    requires WellFormed(m) && !m.firing
    requires m.list.Some? && m.memory.Some? && m.options.memory ==> AllHeard(m.batches, m.list.value, m.memory.value)
    ensures MemoryHeard(m)
  {
  }

  /** When a batch has come to its end, all entries have heard its arguments. */
  lemma EndHeard<F, A>(m: State<F, A>)
    requires Inv(m) && MemoryHeard(m) && m.options.memory
    requires m.firing && !m.running && m.list.Some? && m.firingIndex >= m.firingLength
    ensures AllHeard(m.batches, m.list.value, m.data.value)
  {
    hide Flatten, Requested, BatchesInv, ListInv, QueueInv, MemoryInv, Heard;
    var b := m.batches[|m.batches| - 1];
    forall i | 0 <= i < |m.list.value|
      ensures Heard(m.batches, m.list.value[i].serial, m.data.value)
    {
      if m.list.value[i].serial in b.calls { LastHeard(m.batches, m.list.value[i].serial); }
    }
  }

  lemma LastHeard<A>(bs: seq<Batch<A>>, serial: nat)
    requires bs != [] && serial in bs[|bs| - 1].calls
    ensures Heard(bs, serial, bs[|bs| - 1].args)
  {
  }

  lemma LoopHeard<F, A>(m: State<F, A>)
    requires Inv(m) && MemoryHeard(m) && m.firing && !m.running
    ensures WellFormed(LoopStep(m)) && MemoryHeard(LoopStep(m))
  {
    if m.list.Some? && m.firingIndex < m.firingLength {
      hide Inv, AllHeard, SkippedHeard, Heard;
      var b := m.batches[|m.batches| - 1];
      var c := b.(calls := b.calls + [m.list.value[m.firingIndex].serial]);
      AllHeardLast(m.batches, c, m.list.value, m.data.value);
    } else {
      hide LoopInv, QueueInv, MemoryInv, BatchesInv, ListInv, Flatten, AllHeard, SkippedHeard, Heard, AfterLoop;
      if m.list.Some? && m.options.memory { EndHeard(m); }
      AfterLoopHeard(m, if m.list.Some? then Ran(Serials(m.list.value)) else Cut);
    }
  }

  lemma AddHeard<F, A>(m: State<F, A>, fns: seq<F>)
    requires Inv(m) && MemoryHeard(m) && (m.firing ==> m.running)
    ensures WellFormed(Add(m, fns)) && MemoryHeard(Add(m, fns))
  {
    hide Flatten, Requested, ListInv, QueueInv, PushAll, Heard, MemoryInv;
    if m.list.Some? {
      PushAllInv(m, fns);
      var p := PushAll(m, fns);
      if m.firing {
        var b := m.batches[|m.batches| - 1];
        assert BatchOk(b, m.nextSerial);
        assert forall i :: |m.list.value| <= i < |p.list.value| ==> p.list.value[i].serial !in b.skipped;
      } else if m.memory.Some? {
        assert p.list.value[..|m.list.value|] == m.list.value;
        MemorizesOnly(m);
        StartHeard(p.(firingStart := |m.list.value|), m.memory.value, true);
      }
    }
  }

  lemma MemorizesOnly<F, A>(m: State<F, A>)
    requires MemoryInv(m) && m.memory.Some?
    ensures m.options.memory
  {
  }

  lemma RemoveHeard<F, A>(m: State<F, A>, fn: F)
    requires Inv(m) && MemoryHeard(m) && (m.firing ==> m.running)
    ensures WellFormed(Remove(m, fn)) && MemoryHeard(Remove(m, fn))
  {
    RemoveInv(m, fn);
    hide Flatten, Requested, BatchesInv, QueueInv, MemoryInv, Heard, ListInv, Covered, Without;
    if m.list.Some? {
      WithoutIn(m.list.value, fn);
    }
  }

  lemma MemoryStep<F, A>(m: State<F, A>, a: Action<F, A>)
    requires Inv(m) && MemoryHeard(m) && Enabled(m, a)
    ensures WellFormed(Step(m, a)) && MemoryHeard(Step(m, a))
  {
    match a
    case DoAdd(fns) => AddHeard(m, fns);
    case DoRemove(fn) => RemoveHeard(m, fn);
    case DoFire(args) =>
      hide SkippedHeard, Heard, LoopInv, MemoryInv, BatchesInv, ListInv, Flatten, StartFire;
      if Accepts(m) && !m.firing { StartHeard(m.(accepted := m.accepted + [args]), args, false); }
    case DoLoop => LoopHeard(m);
    case DoReturnFalse =>
      hide SkippedHeard, Heard, LoopInv, MemoryInv, BatchesInv, ListInv, Flatten, AfterLoop;
      if m.options.stopOnFalse { AfterLoopHeard(m.(running := false, memory := None), Stopped); }
    case _ =>
      hide Heard, LoopInv, MemoryInv, BatchesInv, ListInv, Flatten;
  }

  /** The list is never disabled, and not locked before it was fired. */
  ghost predicate NeverDropped<F, A>(options: Options, acts: seq<Action<F, A>>) {
    forall i :: 0 <= i < |acts| ==> !acts[i].DoDisable? && (acts[i].DoLock? ==> Exec(options, acts[..i]).fired)
  }

  lemma DroppedNext<F, A>(options: Options, acts: seq<Action<F, A>>)
    requires NeverDropped(options, acts) && acts != []
    ensures var n := |acts| - 1;
      && NeverDropped(options, acts[..n])
      && !acts[n].DoDisable? && (acts[n].DoLock? ==> Exec(options, acts[..n]).fired)
  {
    hide Exec;
    var n := |acts| - 1;
    assert forall i :: 0 <= i < n ==> acts[..n][..i] == acts[..i];
  }

  /** A list that memorises, and is not dropped or stopped, has memorised something once it was fired. */
  lemma MemoryStays<F, A>(m: State<F, A>, a: Action<F, A>)
    requires Inv(m) && Enabled(m, a) && m.options.memory && !m.options.stopOnFalse
    requires !a.DoDisable? && (a.DoLock? ==> m.fired)
    requires m.list.Some? && (m.fired <==> m.memory.Some?)
    ensures var r := Step(m, a); r.list.Some? && (r.fired <==> r.memory.Some?)
  {
    hide Flatten, Requested, BatchesInv, ListInv, MemoryInv, Covered, Serials, SerialSet, Without, PushAll;
    if a.DoAdd? { PushAllExtends(m, a.fns); }
  }

  lemma {:induction false} MemoryHolds<F, A>(options: Options, acts: seq<Action<F, A>>)
    ensures MemoryHeard(Exec(options, acts))
    ensures options.memory && !options.stopOnFalse && NeverDropped(options, acts) ==>
      var m := Exec(options, acts); m.list.Some? && (m.fired <==> m.memory.Some?)
  {
    hide Inv, Step, Enabled, MemoryHeard, NeverDropped;
    if acts == [] {
      InitHeard<F, A>(options);
    } else {
      var n := |acts| - 1;
      MemoryHolds(options, acts[..n]);
      if NeverDropped(options, acts) { DroppedNext(options, acts); }
      if Enabled(Exec(options, acts[..n]), acts[n]) {
        MemoryStep(Exec(options, acts[..n]), acts[n]);
        if options.memory && !options.stopOnFalse && NeverDropped(options, acts) {
          MemoryStays(Exec(options, acts[..n]), acts[n]);
        }
      }
    }
  }

  lemma InitHeard<F, A>(options: Options)
    ensures WellFormed(Init<F, A>(options)) && MemoryHeard(Init<F, A>(options))
  {
  }

  /** The last batch delivers the last request, whether it is a replay or not. */
  lemma {:induction false} LastRequested<A>(bs: seq<Batch<A>>)
    requires bs != []
    requires forall i :: 0 <= i < |bs| && bs[i].replay ==> i > 0 && bs[i].args == bs[i - 1].args
    ensures Requested(bs) != [] && bs[|bs| - 1].args == Requested(bs)[|Requested(bs)| - 1]
  {
    var n := |bs| - 1;
    if bs[n].replay { LastRequested(bs[..n]); }
  }

  /**
   * A list that memorises, is not stopped, and was neither disabled nor locked before it was fired, is still there;
   * and when it is idle, each callback it holds was invoked with the arguments of the last request delivered, also
   * if it was added after that, and after a lock.
   */
  lemma LockedStillHear<F, A>(options: Options, acts: seq<Action<F, A>>)
    requires options.memory && !options.stopOnFalse && NeverDropped(options, acts) && !Exec(options, acts).firing
    ensures var m := Exec(options, acts);
      && m.list.Some?
      && (m.fired ==>
            var delivered := Requested(m.batches);
            && delivered != [] && delivered <= Taken(options, acts)
            && forall i :: 0 <= i < |m.list.value| ==>
                 Heard(m.batches, m.list.value[i].serial, delivered[|delivered| - 1]))
  {
    var m := Exec(options, acts);
    hide Exec, Heard, Flatten, Requested, BatchesInv, LoopInv, ListInv, Taken, NeverDropped;
    MemoryHolds(options, acts);
    AcceptedAreTaken(options, acts);
    if m.fired {
      LastRequested(m.batches);
      assert Requested(m.batches) <= m.accepted;
    }
  }

  /**
   * An idle list that memorises, and was neither locked, disabled nor stopped, has invoked every callback it holds
   * with the arguments of the last request delivered, also those added after it.
   */
  lemma EveryoneHears<F, A>(options: Options, acts: seq<Action<F, A>>)
    requires options.memory && !options.stopOnFalse && LeftOpen(acts) && !Exec(options, acts).firing
    ensures var m, asked := Exec(options, acts), Requests(options, acts);
      && m.list.Some?
      && (asked != [] ==>
            var last := if options.once then asked[0] else asked[|asked| - 1];
            forall i :: 0 <= i < |m.list.value| ==> Heard(m.batches, m.list.value[i].serial, last))
  {
    var m, asked := Exec(options, acts), Requests(options, acts);
    hide Exec, Requests, Heard, Flatten, Requested, BatchesInv, LoopInv, ListInv, Taken;
    MemoryHolds(options, acts);
    AcceptedAreTaken(options, acts);
    OpenTakes(options, acts);
    if asked != [] {
      LastRequested(m.batches);
      assert Requested(m.batches) <= m.accepted;
    }
  }

  // ---------- what is over ----------

  /** A batch that has ended stays as it is. */
  lemma EndedStays<F, A>(m: State<F, A>, a: Action<F, A>, k: nat)
    requires Inv(m) && Enabled(m, a) && k < |m.batches| && !m.batches[k].end.Open?
    ensures var bs := Step(m, a).batches; k < |bs| && bs[k] == m.batches[k]
  {
    hide Flatten, Requested, ListInv, QueueInv, MemoryInv, Covered, BatchOk, Serials, SerialSet, Without, PushAll;
  }

  lemma {:induction false} StaysEnded<F, A>(options: Options, acts: seq<Action<F, A>>, more: seq<Action<F, A>>, k: nat)
    requires k < |Exec(options, acts).batches| && !Exec(options, acts).batches[k].end.Open?
    ensures var bs := Exec(options, acts + more).batches;
      k < |bs| && bs[k] == Exec(options, acts).batches[k]
  {
    hide Inv, Exec, Enabled, Step;
    if more == [] {
      assert acts + more == acts;
    } else {
      var n := |more| - 1;
      StaysEnded(options, acts, more[..n], k);
      var now := acts + more[..n];
      assert acts + more == now + [more[n]];
      ExecMore(options, now, more[n]);
      if Enabled(Exec(options, now), more[n]) { EndedStays(Exec(options, now), more[n], k); }
    }
  }

  /** A callback returns false under `stopOnFalse`: whatever follows, its batch invokes nothing more. */
  lemma StopsOnFalse<F, A>(options: Options, acts: seq<Action<F, A>>, more: seq<Action<F, A>>)
    requires options.stopOnFalse && Exec(options, acts).running
    ensures var before, after := Exec(options, acts).batches, Exec(options, acts + [DoReturnFalse] + more).batches;
      var k := |before| - 1;
      0 <= k < |after| && after[k].calls == before[k].calls && after[k].end == Stopped
  {
    ExecMore(options, acts, DoReturnFalse);
    StoppedHere(Exec(options, acts));
    hide Inv, Exec, Enabled, Step;
    StaysEnded(options, acts + [DoReturnFalse], more, |Exec(options, acts).batches| - 1);
  }

  lemma StoppedHere<F, A>(m: State<F, A>)
    requires Inv(m) && m.running && m.options.stopOnFalse
    ensures var bs, k := Step(m, DoReturnFalse).batches, |m.batches| - 1;
      0 <= k < |bs| && bs[k].calls == m.batches[k].calls && bs[k].end == Stopped
  {
  }

  lemma ExecMore<F, A>(options: Options, acts: seq<Action<F, A>>, a: Action<F, A>)
    ensures var m := Exec(options, acts);
      Exec(options, acts + [a]) == if Enabled(m, a) then Step(m, a) else m
  {
    assert (acts + [a])[..|acts|] == acts;
    hide Enabled, Step, Inv;
  }

  /** Once fired and idle, a `once` list is disabled if it does not memorise, and otherwise holds nothing. */
  ghost predicate Spent<F, A>(m: State<F, A>) {
    m.fired && !m.firing ==> m.list == (if m.memory.Some? then Some([]) else None)
  }

  lemma SpentStep<F, A>(m: State<F, A>, a: Action<F, A>)
    requires Inv(m) && Enabled(m, a) && m.options.once && Spent(m) && !a.DoEmpty?
    ensures Spent(Step(m, a))
  {
    hide Flatten, Requested, BatchesInv, ListInv, MemoryInv, Covered, Serials, SerialSet, Without, PushAll;
    if a.DoAdd? && m.list.Some? { PushAllExtends(m, a.fns); }
  }

  lemma {:induction false} OnceSpent<F, A>(options: Options, acts: seq<Action<F, A>>)
    requires options.once && forall i :: 0 <= i < |acts| ==> !acts[i].DoEmpty?
    ensures Spent(Exec(options, acts))
    ensures var m := Exec(options, acts); m.accepted != [] && !m.firing ==>
      && (!options.memory ==> m.list == None)
      && (options.memory && !options.stopOnFalse && LeftOpen(acts) ==> m.list == Some([]))
  {
    hide Inv, Exec, Enabled, Step, Spent;
    if acts == [] {
      NeverFired<F, A>(options);
    } else {
      var n := |acts| - 1;
      OnceSpent(options, acts[..n]);
      assert acts == acts[..n] + [acts[n]];
      ExecMore(options, acts[..n], acts[n]);
      if Enabled(Exec(options, acts[..n]), acts[n]) { SpentStep(Exec(options, acts[..n]), acts[n]); }
    }
    MemoryHolds(options, acts);
    SpentIs(Exec(options, acts));
    assert LeftOpen(acts) ==> NeverDropped(options, acts);
  }

  lemma NeverFired<F, A>(options: Options)
    ensures Spent(Exec<F, A>(options, []))
  {
  }

  lemma SpentIs<F, A>(m: State<F, A>)
    requires Inv(m) && Spent(m)
    ensures m.accepted != [] ==> m.fired
    ensures m.accepted != [] && !m.firing ==> m.list == (if m.memory.Some? then Some([]) else None)
    ensures m.memory.Some? ==> m.options.memory
  {
  }

  // ---------- every firing ends ----------

  /** How much a list has still to do if its callbacks do nothing to it. */
  ghost function Load<F, A>(m: State<F, A>): nat
    requires WellFormed(m)
  {
    if !m.firing then 0
    else
      1 + (if m.running then 1 else 0)
      + if m.list.None? then 0
        else
          var waiting := if m.stack.Some? then |m.stack.value| else 0;
          2 * (|m.list.value| - Done(m)) + waiting * (2 * |m.list.value| + 1)
  }

  lemma LoopLoad<F, A>(m: State<F, A>)
    requires WellFormed(m) && m.firing && !m.running
    ensures WellFormed(LoopStep(m)) && Load(LoopStep(m)) < Load(m)
  {
    hide Serials, SerialSet;
    if m.list.Some? && m.firingIndex >= m.firingLength && m.stack.Some? && |m.stack.value| > 0 {
      var n, k := |m.stack.value|, 2 * |m.list.value| + 1;
      assert n * k == (n - 1) * k + k;
    }
  }

  /** Each turn of the loop, and each callback that comes back, brings the end nearer. */
  lemma LoadFalls<F, A>(m: State<F, A>, a: Action<F, A>)
    requires Inv(m) && Enabled(m, a) && (a.DoLoop? || a.DoReturn?)
    ensures WellFormed(Step(m, a)) && Load(Step(m, a)) < Load(m)
  {
    hide Flatten, Requested, BatchesInv, ListInv, MemoryInv, QueueInv, Covered, LoopStep;
    if a.DoLoop? { LoopLoad(m); }
  }

  /** From any state a run can reach, if no callback does anything to the list any more, it becomes idle. */
  lemma {:induction false} BecomesIdle<F, A>(options: Options, acts: seq<Action<F, A>>)
      returns (more: seq<Action<F, A>>)
    ensures !Exec(options, acts + more).firing
    ensures forall i :: 0 <= i < |more| ==> more[i].DoLoop? || more[i].DoReturn?
    decreases Load(Exec(options, acts))
  {
    hide Inv, Step, Load;
    var m := Exec(options, acts);
    if !m.firing {
      more := [];
      assert acts + more == acts;
    } else {
      var a := if m.running then DoReturn else DoLoop;
      LoadFalls(m, a);
      ExecNext(options, acts, a);
      more := BecomesIdle(options, acts + [a]);
      assert (acts + [a]) + more == acts + ([a] + more);
      more := [a] + more;
    }
  }

  ghost predicate OneRequest<F, A>(m: State<F, A>) {
    && |m.accepted| <= 1
    && forall k :: 0 <= k < |m.batches| ==> m.batches[k].args == m.batches[0].args && (m.batches[k].replay <==> k > 0)
  }

  /** A `once` list is fired by at most one request; every other batch replays the same arguments. */
  lemma {:induction false} OnceFiresOnce<F, A>(options: Options, acts: seq<Action<F, A>>)
    requires options.once
    ensures OneRequest(Exec(options, acts))
  {
    hide Inv, Step, Enabled, OneRequest;
    if acts != [] {
      var m, a := Exec(options, acts[..|acts| - 1]), acts[|acts| - 1];
      OnceFiresOnce(options, acts[..|acts| - 1]);
      if Enabled(m, a) { OnceStep(m, a); }
    } else {
      InitOnce<F, A>(options);
    }
  }

  lemma InitOnce<F, A>(options: Options)
    ensures OneRequest(Init<F, A>(options))
  {
  }

  lemma {:induction false} OnceStep<F, A>(m: State<F, A>, a: Action<F, A>)
    requires Inv(m) && Enabled(m, a) && m.options.once && OneRequest(m)
    ensures OneRequest(Step(m, a))
  {
    hide Flatten, BatchesInv, ListInv, Covered, Serials, SerialSet, Without, PushAll;
    if a.DoAdd? && m.list.Some? { PushAllExtends(m, a.fns); }
  }
}
