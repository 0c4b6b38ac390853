/** jQuery.Callbacks with its variables updated in place, each operation proved equal to the step of the machine. */
module CallbackLists {
  import opened Wrappers
  import opened Callbacks

  /**
   * The variables of one callback list, updated in place.  `hist` carries the history that `View`
   * needs and the program does not have.
   */
  class CallbackList<F(==), A> {
    const options: Options
    var firing: bool
    var memory: Option<A>
    var fired: bool
    var firingLength: int
    var firingIndex: int
    var firingStart: nat
    var list: Option<seq<Reg<F>>>
    var stack: Option<seq<A>>
    var data: Option<A>
    var running: bool
    var nextSerial: nat
    ghost var calls: seq<Call<A>>
    ghost var batches: seq<Batch<A>>
    ghost var accepted: seq<A>

    ghost function View(): State<F, A>
      reads this
    {
      State(options, firing, memory, fired, firingLength, firingIndex, firingStart, list, stack,
            data, running, nextSerial, calls, batches, accepted)
    }

    constructor (options: Options)
      ensures View() == Init<F, A>(options) && Inv(View())
    {
      this.options := options;
      firing, memory, fired, firingLength, firingIndex, firingStart := false, None, false, 0, 0, 0;
      list, stack := Some([]), if options.once then None else Some([]);
      data, running, nextSerial, calls, batches, accepted := None, false, 0, [], [], [];
      new;
      InitInv<F, A>(options);
    }

    /** `fire` up to its loop. */
    method Fire(args: A, ghost replay: bool)
      requires list.Some? && firingStart <= |list.value|
      modifies this
      ensures View() == StartFire(old(View()), args, replay)
    {
      hide *;
      FireIs(args, replay);
      var regs := list.value;
      batches := batches + [Batch(args, replay, SerialSet(regs[..firingStart]), [], Open)];
      memory, fired := if options.memory then Some(args) else None, true;
      firingIndex, firingStart, firingLength := firingStart, 0, |regs|;
      firing, data, running := true, Some(args), false;
      Viewed();
    }

    lemma FireIs(args: A, replay: bool)
      requires list.Some? && firingStart <= |list.value|
      ensures StartFire(View(), args, replay) ==
                State(options, true, if options.memory then Some(args) else None, true, |list.value|, firingStart, 0,
                      list, stack, Some(args), false, nextSerial,
                      calls, batches + [Batch(args, replay, SerialSet(list.value[..firingStart]), [], Open)], accepted)
    {
    }

    lemma Viewed()
      ensures View() == State(options, firing, memory, fired, firingLength, firingIndex, firingStart, list, stack, data,
        running, nextSerial, calls, batches, accepted)
    {
    }

    method Add(fns: seq<F>)
      requires WellFormed(View())
      modifies this
      ensures View() == Callbacks.Add(old(View()), fns)
    {
      if list.Some? {
        hide PushAll, StartFire;
        var start := |list.value|;
        PushAllExtends(View(), fns);
        Push(fns);
        if firing {
          firingLength := |list.value|;
        } else if memory.Some? {
          firingStart := start;
          Fire(memory.value, true);
        }
      }
    }

    method Push(fns: seq<F>)
      requires list.Some?
      modifies this`list, this`nextSerial
      ensures list.Some? && View() == PushAll(old(View()), fns)
    {
      var i := 0;
      while i < |fns|
        invariant 0 <= i <= |fns| && list.Some?
        invariant PushAll(View(), fns[i..]) == PushAll(old(View()), fns)
      {
        if !options.unique || !Has(list.value, fns[i]) {
          list := Some(list.value + [Reg(fns[i], nextSerial)]);
          nextSerial := nextSerial + 1;
        }
        assert fns[i..][1..] == fns[i + 1..];
        i := i + 1;
      }
    }

    /** The first index of `fn` at or after `from`, or -1. */
    static method InArray(fn: F, regs: seq<Reg<F>>, from: nat) returns (index: int)
      requires from <= |regs|
      ensures FoundAt(regs, fn, from, index)
    {
      var i := from;
      while i < |regs|
        invariant from <= i <= |regs|
        invariant forall j :: from <= j < i ==> regs[j].fn != fn
      {
        if regs[i].fn == fn { return i; }
        i := i + 1;
      }
      index := -1;
    }

    /** `list.splice(index, 1)` with the adjustment of the firing indexes. */
    method Splice(index: nat)
      requires list.Some? && index < |list.value|
      modifies this`list, this`firingLength, this`firingIndex
      ensures View() == Spliced(old(View()), index)
    {
      list := Some(list.value[..index] + list.value[index + 1..]);
      if firing {
        if index <= firingLength { firingLength := firingLength - 1; }
        if index <= firingIndex { firingIndex := firingIndex - 1; }
      }
    }

    method Remove(fn: F)
      requires WellFormed(View()) && (firing ==> running)
      modifies this
      ensures View() == Callbacks.Remove(old(View()), fn)
    {
      if list.Some? { RemoveAll(fn); }
    }

    method RemoveAll(fn: F)
      requires list.Some? && WellFormed(View()) && (firing ==> running)
      modifies this`list, this`firingLength, this`firingIndex
      ensures View() == Callbacks.Remove(old(View()), fn)
    {
      hide *;
      Viewed();
      ghost var m := View();
      ghost var done: nat := 0; // how much of the original list has been searched
      var from: nat := 0;
      var index := InArray(fn, list.value, from);
      RemovingStart(m, fn);
      while index > -1
        invariant list.Some? && Removing(m, View(), done, from, fn) && FoundAt(list.value, fn, from, index)
        decreases |list.value|
      {
        FoundIn(list.value, fn, from, index);
        ghost var searched := done + (index - from) + 1;
        var next := RemoveAt(index, fn, m, done, from);
        done, from, index := searched, index, next;
      }
      FoundIn(list.value, fn, from, index);
      Viewed();
      RemovingEnd(m, View(), done, from, fn);
    }

    /** One turn of the loop of `remove`: the entry found is spliced out, and the search goes on from there. */
    method RemoveAt(index: nat, fn: F, ghost m: State<F, A>, ghost done: nat, ghost from: nat) returns (next: int)
      requires list.Some? && from <= index < |list.value| && Removing(m, View(), done, from, fn)
        && FoundAt(list.value, fn, from, index)
      modifies this`list, this`firingLength, this`firingIndex
      ensures list.Some? && |list.value| < |old(list).value|
      ensures Removing(m, View(), done + (index - from) + 1, index, fn) && FoundAt(list.value, fn, index, next)
    {
      hide *;
      Viewed();
      RemovingStep(m, View(), done, from, index, fn);
      SplicedLess(View(), index);
      Splice(index);
      Viewed();
      next := InArray(fn, list.value, index);
    }

    method Disable()
      modifies this
      ensures View() == Callbacks.Disable(old(View()))
    {
      list, stack, memory := None, None, None;
    }

    method Lock()
      modifies this
      ensures View() == Callbacks.Lock(old(View()))
    {
      stack := None;
      if memory.None? { Disable(); }
    }

    method FireWith(args: A)
      requires WellFormed(View())
      modifies this
      ensures View() == Callbacks.FireWith(old(View()), args)
    {
      if list.Some? && (!fired || stack.Some?) {
        accepted := accepted + [args];
        if firing {
          stack := Some(stack.value + [args]);
        } else {
          Fire(args, false);
        }
      }
    }

    /** One turn of the loop of `fire`: the callback to run, if there is one. */
    method Next() returns (fn: Option<F>)
      requires WellFormed(View()) && firing && !running
      modifies this
      ensures View() == LoopStep(old(View()))
      ensures fn.Some? <==> old(list).Some? && old(firingIndex) < old(firingLength)
      ensures fn.Some? ==> 0 <= firingIndex < |list.value| && fn.value == list.value[firingIndex].fn
    {
      ghost var n := |batches| - 1;
      if list.Some? && firingIndex < firingLength {
        fn := Some(list.value[firingIndex].fn);
        running := true;
        ghost var serial := list.value[firingIndex].serial;
        calls := calls + [Call(serial, data.value)];
        batches := batches[n := batches[n].(calls := batches[n].calls + [serial])];
      } else {
        fn := None;
        Leave(if list.Some? then Ran(Serials(list.value)) else Cut);
      }
    }

    /** The code of `fire` after its loop. */
    method Leave(ghost end: End)
      requires |batches| > 0 && firingStart == 0
      modifies this
      ensures View() == AfterLoop(old(View()), end)
    {
      ghost var n := |batches| - 1;
      firing := false;
      batches := batches[n := batches[n].(end := end)];
      if list.Some? {
        if stack.Some? {
          if |stack.value| > 0 {
            var args := stack.value[0];
            stack := Some(stack.value[1..]);
            Fire(args, false);
          }
        } else if memory.Some? {
          list := Some([]);
        } else {
          Disable();
        }
      }
    }

    /** The callback that `Next` started comes back, with false or not. */
    method Returned(no: bool)
      requires WellFormed(View()) && running
      modifies this
      ensures View() == if no then ReturnFalse(old(View())) else Return(old(View()))
    {
      running := false;
      if no && options.stopOnFalse {
        memory := None;
        Leave(Stopped);
      } else {
        firingIndex := firingIndex + 1;
      }
    }

    method Empty()
      modifies this
      ensures View() == Callbacks.Empty(old(View()))
    {
      list := Some([]);
    }

    /** Any action of a run, on a list in any state a run can reach. */
    method Perform(a: Action<F, A>)
      requires Inv(View()) && Enabled(View(), a)
      modifies this
      ensures View() == Step(old(View()), a) && Inv(View())
    {
      StepInv(View(), a);
      match a
      case DoAdd(fns) => Add(fns);
      case DoRemove(fn) => Remove(fn);
      case DoFire(args) => FireWith(args);
      case DoDisable => Disable();
      case DoLock => Lock();
      case DoEmpty => Empty();
      case DoLoop => var _ := Next();
      case DoReturn => Returned(false);
      case DoReturnFalse => Returned(true);
    }
  }

  /** `index` is the first occurrence of `fn` at or after `from`, -1 when there is none. */
  ghost predicate FoundAt<F>(regs: seq<Reg<F>>, fn: F, from: nat, index: int) {
    if index == -1 then forall i :: from <= i < |regs| ==> regs[i].fn != fn
    else from <= index < |regs| && regs[index].fn == fn && forall i :: from <= i < index ==> regs[i].fn != fn
  }

  ghost function Spliced<F, A>(m: State<F, A>, index: nat): State<F, A>
    requires m.list.Some? && index < |m.list.value|
  {
    m.(list := Some(m.list.value[..index] + m.list.value[index + 1..]),
       firingLength := if m.firing && index <= m.firingLength then m.firingLength - 1 else m.firingLength,
       firingIndex := if m.firing && index <= m.firingIndex then m.firingIndex - 1 else m.firingIndex)
  }

  /** `now` is `regs` with `fn` removed from its first `done` entries; `from` of those are left. */
  ghost predicate RemovingList<F>(regs: seq<Reg<F>>, now: seq<Reg<F>>, done: nat, from: nat, fn: F) {
    && from <= done <= |regs|
    && from == |Without(regs[..done], fn)|
    && now == Without(regs[..done], fn) + regs[done..]
  }

  /** Where the firing index `at` stands by then. */
  ghost function IndexBy<F>(regs: seq<Reg<F>>, at: int, done: nat, from: nat, fn: F): int
    requires 0 <= at + 1 <= |regs|
  {
    if done <= at then at - (done - from) else |Without(regs[..at + 1], fn)| - 1
  }

  ghost predicate Removing<F, A>(m: State<F, A>, now: State<F, A>, done: nat, from: nat, fn: F) {
    && m.list.Some? && now.list.Some? && RemovingList(m.list.value, now.list.value, done, from, fn)
    && now == m.(list := now.list, firingLength := now.firingLength, firingIndex := now.firingIndex)
    && (!m.firing ==> now.firingLength == m.firingLength && now.firingIndex == m.firingIndex)
    && (m.firing ==>
          && m.firingLength == |m.list.value| && now.firingLength == |now.list.value|
          && 0 <= m.firingIndex + 1 <= |m.list.value|
          && now.firingIndex == IndexBy(m.list.value, m.firingIndex, done, from, fn))
  }

  lemma FoundIn<F>(regs: seq<Reg<F>>, fn: F, from: nat, index: int)
    requires FoundAt(regs, fn, from, index)
    ensures index == -1 || from <= index < |regs|
  {
  }

  lemma SplicedLess<F, A>(m: State<F, A>, index: nat)
    requires m.list.Some? && index < |m.list.value|
    ensures var r := Spliced(m, index); r.list.Some? && |r.list.value| == |m.list.value| - 1
  {
  }

  lemma {:induction false} WithoutStretch<F>(regs: seq<Reg<F>>, done: nat, k: nat, fn: F)
    requires done <= k <= |regs| && forall i :: done <= i < k ==> regs[i].fn != fn
    ensures Without(regs[..k], fn) == Without(regs[..done], fn) + regs[done..k]
    decreases k
  {
    if k > done {
      WithoutStretch(regs, done, k - 1, fn);
      assert regs[..k][..k - 1] == regs[..k - 1];
    }
  }

  lemma WithoutFound<F>(regs: seq<Reg<F>>, at: nat, fn: F)
    requires at < |regs| && regs[at].fn == fn
    ensures Without(regs[..at + 1], fn) == Without(regs[..at], fn)
  {
    assert regs[..at + 1][..at] == regs[..at];
  }

  lemma {:induction false} ListStep<F>(regs: seq<Reg<F>>, now: seq<Reg<F>>, done: nat, from: nat, index: nat, fn: F)
    requires RemovingList(regs, now, done, from, fn)
    requires from <= index < |now| && now[index].fn == fn && forall i :: from <= i < index ==> now[i].fn != fn
    ensures RemovingList(regs, now[..index] + now[index + 1..], done + (index - from) + 1, index, fn)
  {
    hide Without;
    var at := done + (index - from);
    assert forall i :: done <= i < |regs| ==> regs[i] == now[from + (i - done)];
    WithoutStretch(regs, done, at, fn);
    WithoutFound(regs, at, fn);
    assert now[..index] == Without(regs[..at], fn);
    assert now[index + 1..] == regs[at + 1..];
  }

  lemma {:induction false} IndexStep<F>(regs: seq<Reg<F>>, now: seq<Reg<F>>, done: nat, from: nat, index: nat, fn: F,
      fi: int)
    requires RemovingList(regs, now, done, from, fn) && 0 <= fi + 1 <= |regs|
    requires from <= index < |now| && now[index].fn == fn && forall i :: from <= i < index ==> now[i].fn != fn
    ensures var pos := IndexBy(regs, fi, done, from, fn);
      IndexBy(regs, fi, done + (index - from) + 1, index, fn) == if index <= pos then pos - 1 else pos
  {
    var at := done + (index - from);
    assert forall i :: done <= i < |regs| ==> regs[i] == now[from + (i - done)];
    if done <= fi {
      var k := if fi < at then fi + 1 else at;
      WithoutStretch(regs, done, k, fn);
      assert regs[..at + 1][..at] == regs[..at];
    } else {
      WithoutSplit(regs[..done], fi + 1, fn);
      assert regs[..done][..fi + 1] == regs[..fi + 1];
    }
  }

  lemma {:induction false} RemovingStart<F, A>(m: State<F, A>, fn: F)
    requires WellFormed(m) && m.list.Some? && (m.firing ==> m.running)
    ensures Removing(m, m, 0, 0, fn)
  {
    var regs := m.list.value;
    assert regs[..0] == [] && regs[0..] == regs;
  }

  lemma {:induction false} RemovingStep<F, A>(m: State<F, A>, now: State<F, A>, done: nat, from: nat, index: nat, fn: F)
    requires Removing(m, now, done, from, fn)
    requires index < |now.list.value| && FoundAt(now.list.value, fn, from, index)
    ensures Removing(m, Spliced(now, index), done + (index - from) + 1, index, fn)
  {
    ListStep(m.list.value, now.list.value, done, from, index, fn);
    if m.firing { IndexStep(m.list.value, now.list.value, done, from, index, fn, m.firingIndex); }
  }

  lemma {:induction false} RemovingEnd<F, A>(m: State<F, A>, now: State<F, A>, done: nat, from: nat, fn: F)
    requires Removing(m, now, done, from, fn) && FoundAt(now.list.value, fn, from, -1)
    ensures now == Remove(m, fn)
  {
    hide Without;
    var regs := m.list.value;
    forall i | done <= i < |regs|
      ensures regs[i].fn != fn
    {
      assert regs[i] == now.list.value[from + (i - done)];
    }
    WithoutStretch(regs, done, |regs|, fn);
    assert regs[..|regs|] == regs && regs[|regs|..] == [];
    if m.firing && done <= m.firingIndex {
      WithoutStretch(regs, done, m.firingIndex + 1, fn);
    }
  }
}
