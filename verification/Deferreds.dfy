/**
 * jQuery.Deferred: three callback lists, the final state, and the stack of firing loops in progress.
 *
 * `frames` names the lists whose firing loop is on the JavaScript stack, the innermost last.  User
 * code has control when there is no frame, or when the innermost loop is inside one of its callbacks;
 * it may then register on any list and fire any list, including one whose loop is already in progress.
 */
module Deferreds {
  import opened Wrappers
  import opened Callbacks

  datatype Status = Pending | Resolved | Rejected

  datatype Which = DoneList | FailList | ProgressList

  /** What a list of a Deferred may hold: the three callbacks the constructor puts first, and user callbacks. */
  datatype Fn = SetStatus(to: Status) | DisableList(target: Which) | LockList(target: Which) | User(id: nat)

  /** One user callback invoked: on which list, with which arguments, and what it could observe. */
  datatype Run<V> = Run(which: Which, id: nat, args: V, status: Status, rivalDisabled: bool)

  datatype Deferred<V> = Deferred(
    status: Status,
    done: State<Fn, V>, fail: State<Fn, V>, progress: State<Fn, V>,
    frames: seq<Which>,
    doneRegs: seq<nat>, failRegs: seq<nat>, runs: seq<Run<V>>)

  function Get<V>(d: Deferred<V>, w: Which): State<Fn, V> {
    match w
    case DoneList => d.done
    case FailList => d.fail
    case ProgressList => d.progress
  }

  function Put<V>(d: Deferred<V>, w: Which, l: State<Fn, V>): Deferred<V> {
    match w
    case DoneList => d.(done := l)
    case FailList => d.(fail := l)
    case ProgressList => d.(progress := l)
  }

  /** The rival of `done` is `fail` and the other way round. */
  function Rival(w: Which): Which {
    match w
    case DoneList => FailList
    case FailList => DoneList
    case ProgressList => ProgressList
  }

  function Final(w: Which): Status {
    match w
    case DoneList => Resolved
    case FailList => Rejected
    case ProgressList => Pending
  }

  /** The callbacks that the constructor puts at the front of `done` and `fail`. */
  function Prelude(w: Which): seq<Fn> {
    [SetStatus(Final(w)), DisableList(Rival(w)), LockList(ProgressList)]
  }

  function Users(ids: seq<nat>): (fns: seq<Fn>)
    ensures |fns| == |ids| && forall i :: 0 <= i < |ids| ==> fns[i] == User(ids[i])
  {
    seq(|ids|, i requires 0 <= i < |ids| => User(ids[i]))
  }

  function Regs<V>(d: Deferred<V>, w: Which): seq<nat> {
    match w
    case DoneList => d.doneRegs
    case FailList => d.failRegs
    case ProgressList => []
  }

  function NoteRegs<V>(d: Deferred<V>, w: Which, ids: seq<nat>): Deferred<V> {
    match w
    case DoneList => d.(doneRegs := d.doneRegs + ids)
    case FailList => d.(failRegs := d.failRegs + ids)
    case ProgressList => d
  }

  ghost function New<V>(): Deferred<V> {
    var once, many := Options(true, true, false, false), Options(false, true, false, false);
    Deferred(Pending, Add(Init(once), Prelude(DoneList)), Add(Init(once), Prelude(FailList)), Init(many),
             [], [], [], [])
  }

  // ---------- steps ----------

  datatype Action<V> = Register(which: Which, ids: seq<nat>) | Fire(which: Which, args: V) | Turn | Back

  ghost predicate UserTurn<V>(d: Deferred<V>) {
    d.frames == [] || Get(d, d.frames[|d.frames| - 1]).running
  }

  ghost predicate Enabled<V>(d: Deferred<V>, a: Action<V>) {
    match a
    case Register(_, _) => UserTurn(d)
    case Fire(_, _) => UserTurn(d)
    case Turn => !UserTurn(d)
    case Back => d.frames != [] && UserTurn(d)
  }

  /** A list operation that may have started the list's firing loop. */
  ghost function Update<V>(d: Deferred<V>, w: Which, l: State<Fn, V>): Deferred<V> {
    var r := Put(d, w, l);
    if l.firing && !Get(d, w).firing then r.(frames := d.frames + [w]) else r
  }

  /** The body of a callback of list `w`; the constructor's callbacks come back at once. */
  ghost function Invoke<V>(d: Deferred<V>, w: Which, fn: Fn, args: V): Deferred<V> {
    match fn
    case User(id) =>
      d.(runs := d.runs + [Run(w, id, args, d.status, Get(d, Rival(w)).list.None?)])
    case SetStatus(to) => Put(d.(status := to), w, Return(Get(d, w)))
    case DisableList(target) => var r := Put(d, target, Disable(Get(d, target))); Put(r, w, Return(Get(r, w)))
    case LockList(target) => var r := Put(d, target, Lock(Get(d, target))); Put(r, w, Return(Get(r, w)))
  }

  ghost function RegisterStep<V>(d: Deferred<V>, w: Which, ids: seq<nat>): Deferred<V> {
    Update(NoteRegs(d, w, ids), w, Add(Get(d, w), Users(ids)))
  }

  ghost function FireStep<V>(d: Deferred<V>, w: Which, args: V): Deferred<V>
    requires WellFormed(Get(d, w))
  {
    Update(d, w, FireWith(Get(d, w), args))
  }

  ghost predicate CanTurn<V>(l: State<Fn, V>) {
    WellFormed(l) && l.firing && !l.running
  }

  ghost function TurnStep<V>(d: Deferred<V>, w: Which): Deferred<V>
    requires d.frames != [] && w == d.frames[|d.frames| - 1] && CanTurn(Get(d, w))
  {
    var l := LoopStep(Get(d, w));
    var r := Put(d, w, l);
    if l.running then Invoke(r, w, l.list.value[l.firingIndex].fn, l.data.value)
    else if l.firing then r
    else r.(frames := d.frames[..|d.frames| - 1])
  }

  ghost function Step<V>(d: Deferred<V>, a: Action<V>): Deferred<V>
    requires Inv(d) && Enabled(d, a)
  {
    match a
    case Register(w, ids) => RegisterStep(d, w, ids)
    case Fire(w, args) => FireStep(d, w, args)
    case Turn => InnermostCanTurn(d); TurnStep(d, d.frames[|d.frames| - 1])
    case Back =>
      var w := d.frames[|d.frames| - 1];
      Put(d, w, Return(Get(d, w)))
  }

  /** The Deferred after a sequence of actions; an action that is not enabled is passed over. */
  ghost function Exec<V>(acts: seq<Action<V>>): (d: Deferred<V>)
    ensures Inv(d)
  {
    if acts == [] then NewInv<V>(); New()
    else
      var d := Exec(acts[..|acts| - 1]);
      var a := acts[|acts| - 1];
      if Enabled(d, a) then DeferredStepInv(d, a); Step(d, a) else d
  }

  // ---------- the invariant ----------

  ghost predicate ListOk<V>(l: State<Fn, V>) {
    && l.options.memory && !l.options.unique && !l.options.stopOnFalse
    && (l.options.once ==> l.stack.None?)
    && (l.list.None? ==> l.stack.None? && l.memory.None?)
    && (!l.fired ==> l.memory.None? && l.batches == [] && l.accepted == [])
    && (l.options.once && l.memory.Some? ==> l.accepted == [l.memory.value])
    && (l.fired ==> |l.batches| > 0)
    && (l.fired && l.list.Some? ==> l.memory.Some?)
    && (l.firing && l.list.Some? ==> l.memory == l.data)
  }

  ghost predicate AllUsers(regs: seq<Reg<Fn>>) {
    forall i :: 0 <= i < |regs| ==> regs[i].fn.User?
  }

  ghost predicate HasPrelude(w: Which, regs: seq<Reg<Fn>>) {
    && |regs| >= 3
    && regs[0].fn == SetStatus(Final(w)) && regs[1].fn == DisableList(Rival(w)) && regs[2].fn == LockList(ProgressList)
    && forall i :: 3 <= i < |regs| ==> regs[i].fn.User?
  }

  /** What each list holds: `done` and `fail` keep the constructor's callbacks until their first batch is over. */
  ghost predicate ShapeOk<V>(w: Which, l: State<Fn, V>) {
    if w == ProgressList then !l.options.once && (l.list.Some? ==> AllUsers(l.list.value))
    else
      && l.options.once && (l.list.None? ==> !l.fired)
      && (l.list.Some? ==>
            if !l.fired then HasPrelude(w, l.list.value)
            else if !l.firing then l.list.value == []
            else if |l.batches| == 1 then HasPrelude(w, l.list.value) && (l.running ==> l.firingIndex >= 3)
            else AllUsers(l.list.value))
  }

  ghost predicate LaneOk<V>(w: Which, l: State<Fn, V>) {
    WellFormed(l) && ListOk(l) && ShapeOk(w, l)
  }

  datatype Busy = Off | Looping | InCallback

  ghost function BusyOf<V>(l: State<Fn, V>): Busy {
    if !l.firing then Off else if l.running then InCallback else Looping
  }

  ghost predicate Distinct(frames: seq<Which>) {
    forall i, j :: 0 <= i < j < |frames| ==> frames[i] != frames[j]
  }

  /** A list is firing exactly when it has a frame, and only the innermost may be between two callbacks. */
  ghost predicate FrameOk(frames: seq<Which>, w: Which, busy: Busy) {
    && (w in frames <==> busy != Off)
    && (busy == Looping ==> frames[|frames| - 1] == w)
  }

  ghost predicate FramesOk<V>(d: Deferred<V>) {
    && Distinct(d.frames)
    && FrameOk(d.frames, DoneList, BusyOf(d.done))
    && FrameOk(d.frames, FailList, BusyOf(d.fail))
    && FrameOk(d.frames, ProgressList, BusyOf(d.progress))
  }

  /** How far the first batch is into the constructor's callbacks: 0, 1 or 2, and 3 when not among them. */
  ghost function Stage<V>(l: State<Fn, V>): int {
    if l.firing && !l.running && |l.batches| == 1 && 0 <= l.firingIndex < 3 then l.firingIndex else 3
  }

  datatype Brief = Brief(enabled: bool, fired: bool, stage: int)

  ghost function BriefOf<V>(l: State<Fn, V>): Brief {
    Brief(l.list.Some?, l.fired, Stage(l))
  }

  /** Not fired, or fired and about to set the status. */
  ghost predicate Waiting(b: Brief) {
    b.enabled && (b.fired ==> b.stage == 0)
  }

  /** What holds once the list `own` has settled the Deferred. */
  ghost predicate SettledBy(own: Brief, rival: Brief, progressLocked: bool) {
    && own.enabled && own.fired && own.stage > 0
    && (if own.stage == 1 then rival.enabled && !rival.fired else !rival.enabled)
    && (own.stage == 3 ==> progressLocked)
  }

  ghost predicate StatusOk(status: Status, done: Brief, fail: Brief, progressLocked: bool) {
    match status
    case Pending => Waiting(done) && Waiting(fail) && !(done.fired && fail.fired)
    case Resolved => SettledBy(done, fail, progressLocked)
    case Rejected => SettledBy(fail, done, progressLocked)
  }

  ghost function Rest<V>(l: State<Fn, V>): seq<Reg<Fn>>
    requires WellFormed(l) && l.list.Some?
  {
    if l.firing then l.list.value[Done(l)..] else l.list.value
  }

  ghost function UserIds(regs: seq<Reg<Fn>>): seq<nat> {
    if regs == [] then []
    else (if regs[0].fn.User? then [regs[0].fn.id] else []) + UserIds(regs[1..])
  }

  ghost function RunIds<V>(runs: seq<Run<V>>, w: Which): seq<nat> {
    if runs == [] then []
    else
      var last := runs[|runs| - 1];
      RunIds(runs[..|runs| - 1], w) + (if last.which == w then [last.id] else [])
  }

  /** The callbacks that have run and those still to run are the registrations, in order. */
  ghost predicate RegsOk<V>(w: Which, l: State<Fn, V>, runs: seq<Run<V>>, regs: seq<nat>)
    requires WellFormed(l)
  {
    if l.list.Some? then RunIds(runs, w) + UserIds(Rest(l)) == regs else RunIds(runs, w) == []
  }

  /** A callback of `done` or `fail` saw it settled its way, the rival list disabled, and got the memorised arguments.
      */
  ghost predicate RunOk<V>(r: Run<V>, status: Status, doneMemory: Option<V>, failMemory: Option<V>) {
    match r.which
    case ProgressList => true
    case DoneList => r.status == Resolved && status == Resolved && r.rivalDisabled && doneMemory == Some(r.args)
    case FailList => r.status == Rejected && status == Rejected && r.rivalDisabled && failMemory == Some(r.args)
  }

  ghost predicate RunsOk<V>(runs: seq<Run<V>>, status: Status, doneMemory: Option<V>, failMemory: Option<V>) {
    forall i :: 0 <= i < |runs| ==> RunOk(runs[i], status, doneMemory, failMemory)
  }

  ghost predicate Inv<V>(d: Deferred<V>) {
    && LaneOk(DoneList, d.done) && LaneOk(FailList, d.fail) && LaneOk(ProgressList, d.progress)
    && FramesOk(d)
    && StatusOk(d.status, BriefOf(d.done), BriefOf(d.fail), d.progress.stack.None?)
    && RegsOk(DoneList, d.done, d.runs, d.doneRegs) && RegsOk(FailList, d.fail, d.runs, d.failRegs)
    && RunsOk(d.runs, d.status, d.done.memory, d.fail.memory)
  }

  // ---------- one list at a time ----------

  lemma {:induction false} NoUserIds(regs: seq<Reg<Fn>>)
    requires forall i :: 0 <= i < |regs| ==> !regs[i].fn.User?
    ensures UserIds(regs) == []
  {
    if regs != [] { NoUserIds(regs[1..]); }
  }

  lemma {:induction false} UserIdsConcat(a: seq<Reg<Fn>>, b: seq<Reg<Fn>>)
    ensures UserIds(a + b) == UserIds(a) + UserIds(b)
  {
    if a == [] {
      assert a + b == b;
    } else {
      var x, own := a[0], if a[0].fn.User? then [a[0].fn.id] else [];
      assert (a + b)[0] == x && (a + b)[1..] == a[1..] + b;
      assert UserIds(a) == own + UserIds(a[1..]) && UserIds(a + b) == own + UserIds(a[1..] + b);
      hide UserIds;
      UserIdsConcat(a[1..], b);
      assert own + (UserIds(a[1..]) + UserIds(b)) == (own + UserIds(a[1..])) + UserIds(b);
    }
  }

  lemma {:induction false} UserIdsOf(regs: seq<Reg<Fn>>, ids: seq<nat>)
    requires |regs| == |ids| && forall i :: 0 <= i < |ids| ==> regs[i].fn == User(ids[i])
    ensures UserIds(regs) == ids
  {
    if regs != [] { UserIdsOf(regs[1..], ids[1..]); }
  }

  /** Without `unique`, pushing appends one entry for each function. */
  lemma {:induction false} PushAllFns<V>(m: State<Fn, V>, fns: seq<Fn>)
    requires m.list.Some? && !m.options.unique
    ensures var p := PushAll(m, fns);
      && |p.list.value| == |m.list.value| + |fns| && m.list.value <= p.list.value
      && forall i :: |m.list.value| <= i < |p.list.value| ==> p.list.value[i].fn == fns[i - |m.list.value|]
    decreases |fns|
  {
    if fns != [] {
      PushAllFns(m.(list := Some(m.list.value + [Reg(fns[0], m.nextSerial)]), nextSerial := m.nextSerial + 1),
          fns[1..]);
    }
  }

  /** Registering on a list that is idle or inside a callback: the new entries come last and run if it has fired. */
  lemma {:induction false} AddLane<V>(w: Which, l: State<Fn, V>, ids: seq<nat>)
    requires LaneOk(w, l) && BusyOf(l) != Looping
    ensures var r := Add(l, Users(ids));
      && LaneOk(w, r) && BriefOf(r) == BriefOf(l) && r.memory == l.memory && r.stack == l.stack
      && BusyOf(r) == (if BusyOf(l) == Off && l.list.Some? && l.memory.Some? then Looping else BusyOf(l))
      && (w != ProgressList && l.list.Some? ==> UserIds(Rest(r)) == UserIds(Rest(l)) + ids)
  {
    hide UserIds, PushAll, Users, Rest;
    if l.list.Some? {
      PushAllFns(l, Users(ids));
      if w != ProgressList { AddRest(l, ids); }
    }
  }

  lemma AddRest<V>(l: State<Fn, V>, ids: seq<nat>)
    requires WellFormed(l) && l.list.Some? && !l.options.unique && BusyOf(l) != Looping
    requires !l.firing && l.memory.Some? ==> l.list.value == []
    ensures var r := Add(l, Users(ids));
      WellFormed(r) && r.list.Some? && UserIds(Rest(r)) == UserIds(Rest(l)) + ids
  {
    hide *;
    var more := AddedRest(l, ids);
    UserIdsOf(more, ids);
    UserIdsConcat(Rest(l), more);
  }

  lemma AddedRest<V>(l: State<Fn, V>, ids: seq<nat>) returns (more: seq<Reg<Fn>>)
    requires WellFormed(l) && l.list.Some? && !l.options.unique && BusyOf(l) != Looping
    requires !l.firing && l.memory.Some? ==> l.list.value == []
    ensures WellFormed(Add(l, Users(ids))) && Add(l, Users(ids)).list.Some?
      && Rest(Add(l, Users(ids))) == Rest(l) + more
    ensures |more| == |ids| && forall i :: 0 <= i < |ids| ==> more[i].fn == User(ids[i])
  {
    hide PushAll, Add, WellFormed;
    AddIs(l, ids);
    PushAllFns(l, Users(ids));
    var all := Add(l, Users(ids)).list.value;
    more := all[|l.list.value|..];
    assert all == l.list.value + more;
    if l.firing { assert all[Done(l)..] == l.list.value[Done(l)..] + more; }
  }

  lemma AddIs<V>(l: State<Fn, V>, ids: seq<nat>)
    requires WellFormed(l) && l.list.Some? && !l.options.unique && BusyOf(l) != Looping
    requires !l.firing && l.memory.Some? ==> l.list.value == []
    ensures var r := Add(l, Users(ids));
      && WellFormed(r) && r.list == PushAll(l, Users(ids)).list
      && (l.firing ==> r.firing && Done(r) == Done(l) && 0 <= Done(l) <= |l.list.value|)
      && (!l.firing && r.firing ==> Done(r) == 0 && l.list.value == [])
  {
    hide PushAll, SerialSet, Users;
    PushAllFns(l, Users(ids));
  }

  lemma {:induction false} FireLane<V>(w: Which, l: State<Fn, V>, args: V)
    requires LaneOk(w, l) && BusyOf(l) != Looping
    ensures var r := FireWith(l, args);
      && LaneOk(w, r) && r.list == l.list && r.stack.None? == l.stack.None?
      && BusyOf(r) == (if Accepts(l) && BusyOf(l) == Off then Looping else BusyOf(l))
      && (w != ProgressList && !Accepts(l) ==> r == l)
      && (w != ProgressList && Accepts(l) ==> BriefOf(r) == Brief(true, true, 0) && !l.fired)
      && (w != ProgressList && l.list.Some? ==> Rest(r) == Rest(l))
  {
  }

  lemma {:induction false} BackLane<V>(w: Which, l: State<Fn, V>)
    requires LaneOk(w, l) && l.running
    ensures var r := Return(l);
      && LaneOk(w, r) && r.list == l.list && r.memory == l.memory && r.stack == l.stack
      && BusyOf(r) == Looping && (w != ProgressList && l.list.Some? ==> BriefOf(r) == BriefOf(l)) && r.fired == l.fired
      && (l.list.Some? ==> Rest(r) == Rest(l))
  {
  }

  // ---------- the Deferred as a whole ----------

  lemma {:induction false} NewLane<V>(w: Which)
    requires w != ProgressList
    ensures var l := Add(Init<Fn, V>(Options(true, true, false, false)), Prelude(w));
      && LaneOk(w, l) && BusyOf(l) == Off && BriefOf(l) == Brief(true, false, 3)
      && UserIds(Rest(l)) == []
  {
    var empty := Init<Fn, V>(Options(true, true, false, false));
    PushAllFns(empty, Prelude(w));
    NoUserIds(Add(empty, Prelude(w)).list.value);
  }

  lemma NoneRunYet<V>()
    ensures forall w :: RunIds<V>([], w) == []
  {
  }

  lemma {:induction false} NewInv<V>()
    ensures Inv(New<V>())
  {
    hide Add, HasPrelude, UserIds, Prelude, Rest;
    NewLane<V>(DoneList);
    NewLane<V>(FailList);
    NoneRunYet<V>();
  }

  lemma {:induction false} InnermostCanTurn<V>(d: Deferred<V>)
    requires Inv(d) && !UserTurn(d)
    ensures CanTurn(Get(d, d.frames[|d.frames| - 1]))
  {
    assert d.frames[|d.frames| - 1] in d.frames;
  }

  /** When user code has control, no list is between two callbacks. */
  lemma {:induction false} NoneLooping<V>(d: Deferred<V>)
    requires FramesOk(d) && UserTurn(d)
    ensures BusyOf(d.done) != Looping && BusyOf(d.fail) != Looping && BusyOf(d.progress) != Looping
  {
  }

  lemma {:induction false} UpdateFrames<V>(d: Deferred<V>, w: Which, l: State<Fn, V>)
    requires FramesOk(d) && UserTurn(d)
    requires BusyOf(l) == BusyOf(Get(d, w)) || (BusyOf(l) == Looping && BusyOf(Get(d, w)) == Off)
    ensures FramesOk(Update(d, w, l))
  {
    NoneLooping(d);
    var frames := d.frames + [w];
    assert forall v :: v in frames <==> v in d.frames || v == w;
  }

  lemma {:induction false} RegisterInv<V>(d: Deferred<V>, w: Which, ids: seq<nat>)
    requires Inv(d) && UserTurn(d)
    ensures Inv(RegisterStep(d, w, ids))
  {
    hide ListOk, ShapeOk, RunIds, UserIds, FrameOk, Distinct, Add;
    NoneLooping(d);
    var l := Get(d, w);
    AddLane(w, l, ids);
    UpdateFrames(NoteRegs(d, w, ids), w, Add(l, Users(ids)));
    if w != ProgressList && l.list.Some? {
      assert RunIds(d.runs, w) + (UserIds(Rest(l)) + ids) == (RunIds(d.runs, w) + UserIds(Rest(l))) + ids;
    }
  }

  lemma {:induction false} FireInv<V>(d: Deferred<V>, w: Which, args: V)
    requires Inv(d) && UserTurn(d)
    ensures Inv(FireStep(d, w, args))
  {
    hide ListOk, ShapeOk, RunIds, UserIds, FrameOk, Distinct;
    NoneLooping(d);
    FireLane(w, Get(d, w), args);
    UpdateFrames(d, w, FireWith(Get(d, w), args));
    NoRuns(d, w);
  }

  /** A list that has not been fired has run nothing. */
  lemma {:induction false} NoRuns<V>(d: Deferred<V>, w: Which)
    requires RunsOk(d.runs, d.status, d.done.memory, d.fail.memory)
    ensures w != ProgressList && Get(d, w).memory.None? ==> forall i :: 0 <= i < |d.runs| ==> d.runs[i].which != w
  {
  }

  lemma {:induction false} BackInv<V>(d: Deferred<V>)
    requires Inv(d) && Enabled(d, Back)
    ensures Inv(Step(d, Back))
  {
    hide ListOk, RunIds, UserIds, RunsOk;
    var w := d.frames[|d.frames| - 1];
    NoneLooping(d);
    BackLane(w, Get(d, w));
  }

  lemma {:induction false} DeferredStepInv<V>(d: Deferred<V>, a: Action<V>)
    requires Inv(d) && Enabled(d, a)
    ensures Inv(Step(d, a))
  {
    match a
    case Register(w, ids) => RegisterInv(d, w, ids);
    case Fire(w, args) => FireInv(d, w, args);
    case Turn => TurnInv(d);
    case Back => BackInv(d);
  }

  lemma {:induction false} TurnInv<V>(d: Deferred<V>)
    requires Inv(d) && Enabled(d, Turn)
    ensures Inv(Step(d, Turn))
  {
    InnermostCanTurn(d);
    var w := d.frames[|d.frames| - 1];
    var l := Get(d, w);
    if l.list.Some? && l.firingIndex < l.firingLength {
      match l.list.value[l.firingIndex].fn
      case User(_) => UserTurnInv(d, w);
      case SetStatus(_) => SetStatusInv(d, w);
      case DisableList(_) => DisableInv(d, w);
      case LockList(_) => LockInv(d, w);
    } else {
      EndInv(d, w);
    }
  }

  ghost predicate AtCallback<V>(d: Deferred<V>, w: Which) {
    && d.frames != [] && w == d.frames[|d.frames| - 1] && CanTurn(Get(d, w))
    && Get(d, w).list.Some? && Get(d, w).firingIndex < Get(d, w).firingLength
  }

  ghost function NextFn<V>(d: Deferred<V>, w: Which): Fn
    requires AtCallback(d, w)
  {
    Get(d, w).list.value[Get(d, w).firingIndex].fn
  }

  /** The loop of `w` reaches a user callback. */
  lemma {:induction false} InvokeLane<V>(w: Which, l: State<Fn, V>)
    requires LaneOk(w, l) && CanTurn(l) && l.list.Some? && l.firingIndex < l.firingLength
    requires l.list.value[l.firingIndex].fn.User?
    ensures var r, fn := LoopStep(l), l.list.value[l.firingIndex].fn;
      && LaneOk(w, r) && r.list == l.list && r.memory == l.memory && r.stack == l.stack
        && r.firingIndex == l.firingIndex
      && BusyOf(r) == InCallback && r.running && r.data == l.data && r.data.Some? && l.memory == l.data && l.data.Some?
      && (w != ProgressList ==> BriefOf(l) == Brief(true, true, 3) && BriefOf(r) == BriefOf(l)
                                && UserIds(Rest(l)) == [fn.id] + UserIds(Rest(r)))
  {
    var r := LoopStep(l);
    assert Rest(l) == [l.list.value[l.firingIndex]] + Rest(r);
  }

  /** The loop of `w` reaches one of the constructor's callbacks, which comes back at once. */
  lemma {:induction false} PreludeLane<V>(w: Which, l: State<Fn, V>)
    requires LaneOk(w, l) && CanTurn(l) && l.list.Some? && l.firingIndex < l.firingLength
    requires !l.list.value[l.firingIndex].fn.User?
    ensures w != ProgressList
    ensures var r, stage := Return(LoopStep(l)), Stage(l);
      && LaneOk(w, r) && r.list == l.list && r.memory == l.memory && r.stack == l.stack && BusyOf(r) == Looping
      && 0 <= stage < 3 && l.list.value[l.firingIndex].fn == Prelude(w)[stage]
      && LoopStep(l).running && LoopStep(l).list == l.list && LoopStep(l).firingIndex == l.firingIndex
      && BriefOf(l) == Brief(true, true, stage) && BriefOf(r) == Brief(true, true, stage + 1)
      && UserIds(Rest(r)) == UserIds(Rest(l))
  {
    var r := Return(LoopStep(l));
    assert Rest(l) == [l.list.value[l.firingIndex]] + Rest(r);
  }

  /** Disabling a rival that has not been fired. */
  lemma {:induction false} DisableLane<V>(w: Which, l: State<Fn, V>)
    requires LaneOk(w, l)
    ensures var r := Disable(l);
      && (!l.fired ==> LaneOk(w, r)) && BusyOf(r) == BusyOf(l) && BriefOf(r) == BriefOf(l).(enabled := false)
      && r.memory.None? && r.list.None? && (!l.fired ==> l.memory.None?)
  {
  }

  lemma {:induction false} LockLane<V>(l: State<Fn, V>)
    requires LaneOk(ProgressList, l)
    ensures var r := Lock(l); LaneOk(ProgressList, r) && BusyOf(r) == BusyOf(l) && r.stack.None?
  {
  }

  /** The loop of `w` has run out of callbacks; only `progress` may have another batch waiting. */
  lemma {:induction false} EndLane<V>(w: Which, l: State<Fn, V>)
    requires LaneOk(w, l) && CanTurn(l) && !(l.list.Some? && l.firingIndex < l.firingLength)
    ensures var r := LoopStep(l);
      && LaneOk(w, r) && !r.running && (r.firing ==> BusyOf(r) == Looping && w == ProgressList)
        && (!r.firing ==> BusyOf(r) == Off)
      && r.stack.None? == l.stack.None?
      && (w != ProgressList ==> l.list.Some? && r.list.Some? && r.memory == l.memory && BriefOf(r) == BriefOf(l)
                                && UserIds(Rest(r)) == UserIds(Rest(l)) == [])
  {
    if l.list.Some? && w != ProgressList { assert Rest(l) == []; }
  }

  /** Turning the innermost loop over keeps the frames right: it goes on, enters a callback, or ends. */
  lemma {:induction false} TurnFrames<V>(d: Deferred<V>, w: Which, l: State<Fn, V>)
    requires FramesOk(d) && d.frames != [] && w == d.frames[|d.frames| - 1]
    ensures BusyOf(l) != Off ==> FramesOk(Put(d, w, l))
    ensures BusyOf(l) == Off ==> FramesOk(Put(d, w, l).(frames := d.frames[..|d.frames| - 1]))
  {
    var top := |d.frames| - 1;
    assert d.frames == d.frames[..top] + [w];
    assert d.frames[top] in d.frames;
  }

  lemma {:induction false} RunIdsSnoc<V>(runs: seq<Run<V>>, r: Run<V>, w: Which)
    ensures RunIds(runs + [r], w) == RunIds(runs, w) + (if r.which == w then [r.id] else [])
  {
    assert (runs + [r])[..|runs|] == runs;
  }

  lemma {:induction false} NoRunIds<V>(runs: seq<Run<V>>, w: Which)
    requires forall i :: 0 <= i < |runs| ==> runs[i].which != w
    ensures RunIds(runs, w) == []
  {
    if runs != [] { NoRunIds(runs[..|runs| - 1], w); }
  }

  lemma {:induction false} UserTurnInv<V>(d: Deferred<V>, w: Which)
    requires Inv(d) && AtCallback(d, w) && NextFn(d, w).User?
    ensures Inv(TurnStep(d, w))
  {
    hide FrameOk, Distinct, ListOk, ShapeOk, LoopStep, RunIds, UserIds;
    InvokeLane(w, Get(d, w));
    var l := LoopStep(Get(d, w));
    TurnFrames(d, w, l);
    var run := Run(w, NextFn(d, w).id, l.data.value, d.status, Get(d, Rival(w)).list.None?);
    assert TurnStep(d, w) == Put(d, w, l).(runs := d.runs + [run]);
    UserTurnRegs(d, w, l, run);
    assert RunOk(run, d.status, d.done.memory, d.fail.memory);
  }

  lemma {:induction false} UserTurnRegs<V>(d: Deferred<V>, w: Which, l: State<Fn, V>, run: Run<V>)
    requires WellFormed(l) && run.which == w && WellFormed(Get(d, w)) && WellFormed(Get(d, Rival(w)))
    requires w != ProgressList ==>
      RegsOk(w, Get(d, w), d.runs, Regs(d, w)) && RegsOk(Rival(w), Get(d, Rival(w)), d.runs, Regs(d, Rival(w)))
    requires w != ProgressList ==>
      l.list.Some? && Get(d, w).list.Some? && UserIds(Rest(Get(d, w))) == [run.id] + UserIds(Rest(l))
    ensures w != ProgressList ==> RegsOk(w, l, d.runs + [run], Regs(d, w))
    ensures forall v | v != w && v != ProgressList :: RunIds(d.runs + [run], v) == RunIds(d.runs, v)
  {
    hide RunIds, UserIds, Rest, WellFormed;
    RunIdsSnoc(d.runs, run, DoneList);
    RunIdsSnoc(d.runs, run, FailList);
    assert RunIds(d.runs, DoneList) + [] == RunIds(d.runs, DoneList)
      && RunIds(d.runs, FailList) + [] == RunIds(d.runs, FailList);
    if w != ProgressList {
      assert RunIds(d.runs, w) + ([run.id] + UserIds(Rest(l))) == (RunIds(d.runs, w) + [run.id]) + UserIds(Rest(l));
    }
  }

  lemma {:induction false} SetStatusInv<V>(d: Deferred<V>, w: Which)
    requires Inv(d) && AtCallback(d, w) && NextFn(d, w).SetStatus?
    ensures Inv(TurnStep(d, w))
  {
    hide ListOk, ShapeOk, LoopStep, RunIds, UserIds, FramesOk, RunsOk, Return, Rest, TurnStep, RegsOk;
    var l := Return(LoopStep(Get(d, w)));
    PreludeLane(w, Get(d, w));
    TurnFrames(d, w, l);
    SetStatusTurn(d, w);
    SetStatusPut(d, w, l);
  }

  lemma SetStatusTurn<V>(d: Deferred<V>, w: Which)
    requires Inv(d) && AtCallback(d, w) && NextFn(d, w).SetStatus?
    ensures TurnStep(d, w) == Put(d.(status := Final(w)), w, Return(LoopStep(Get(d, w))))
  {
    hide ListOk, ShapeOk, LoopStep, RunIds, UserIds, FrameOk, Distinct, Return, RunOk, Rest, RegsOk, StatusOk;
    PreludeLane(w, Get(d, w));
  }

  /** The loop of `w` has gone on to `l`, and the Deferred is settled. */
  lemma SetStatusPut<V>(d: Deferred<V>, w: Which, l: State<Fn, V>)
    requires Inv(d) && w != ProgressList && FramesOk(Put(d, w, l)) && LaneOk(w, l)
    requires Get(d, w).list.Some? && l.list == Get(d, w).list && l.memory == Get(d, w).memory
    requires BriefOf(Get(d, w)) == Brief(true, true, 0) && BriefOf(l) == Brief(true, true, 1)
    requires UserIds(Rest(l)) == UserIds(Rest(Get(d, w)))
    ensures Inv(Put(d.(status := Final(w)), w, l))
  {
    hide ListOk, ShapeOk, RunIds, UserIds, FrameOk, Distinct, Rest, BusyOf, BriefOf;
    assert d.status == Pending;
  }

  lemma {:induction false} DisableInv<V>(d: Deferred<V>, w: Which)
    requires Inv(d) && AtCallback(d, w) && NextFn(d, w).DisableList?
    ensures Inv(TurnStep(d, w))
  {
    hide ListOk, ShapeOk, LoopStep, RunIds, UserIds, FramesOk, RunsOk, Disable, Return, Rest, TurnStep, RegsOk;
    var l, rival := Return(LoopStep(Get(d, w))), Get(d, Rival(w));
    DisableLane(Rival(w), rival);
    PreludeLane(w, Get(d, w));
    TurnFrames(d, w, l);
    NoRuns(d, Rival(w));
    NoRunIds(d.runs, Rival(w));
    DisableTurn(d, w);
    DisablePut(d, w, l, Disable(rival));
  }

  lemma DisableTurn<V>(d: Deferred<V>, w: Which)
    requires Inv(d) && AtCallback(d, w) && NextFn(d, w).DisableList?
    ensures TurnStep(d, w) == Put(Put(d, Rival(w), Disable(Get(d, Rival(w)))), w, Return(LoopStep(Get(d, w))))
  {
    hide ListOk, ShapeOk, LoopStep, RunIds, UserIds, FrameOk, Distinct, Disable, Return, RunOk, Rest, RegsOk, StatusOk;
    PreludeLane(w, Get(d, w));
  }

  /** The loop of `w` has gone on to `l`, and the rival list, not fired yet, has been disabled to `r`. */
  lemma DisablePut<V>(d: Deferred<V>, w: Which, l: State<Fn, V>, r: State<Fn, V>)
    requires Inv(d) && w != ProgressList && FramesOk(Put(d, w, l)) && LaneOk(w, l) && LaneOk(Rival(w), r)
    requires Get(d, w).list.Some? && l.list == Get(d, w).list && l.memory == Get(d, w).memory
    requires BriefOf(Get(d, w)) == Brief(true, true, 1) && BriefOf(l) == Brief(true, true, 2)
    requires UserIds(Rest(l)) == UserIds(Rest(Get(d, w)))
    requires BusyOf(r) == BusyOf(Get(d, Rival(w))) && BriefOf(r) == BriefOf(Get(d, Rival(w))).(enabled := false)
    requires r.list.None? && r.memory.None? && Get(d, Rival(w)).memory.None? && RunIds(d.runs, Rival(w)) == []
    ensures Inv(Put(Put(d, Rival(w), r), w, l))
  {
    hide ListOk, ShapeOk, RunIds, UserIds, FrameOk, Distinct, RunOk, Rest, BusyOf, BriefOf;
  }

  lemma {:induction false} LockInv<V>(d: Deferred<V>, w: Which)
    requires Inv(d) && AtCallback(d, w) && NextFn(d, w).LockList?
    ensures Inv(TurnStep(d, w))
  {
    hide ListOk, ShapeOk, LoopStep, RunIds, UserIds, FramesOk, RunsOk, Lock, Return, Rest, TurnStep, RegsOk;
    var l, progress := Return(LoopStep(Get(d, w))), d.progress;
    LockLane(progress);
    PreludeLane(w, Get(d, w));
    TurnFrames(d, w, l);
    LockTurn(d, w);
    LockPut(d, w, l, Lock(progress));
  }

  lemma LockTurn<V>(d: Deferred<V>, w: Which)
    requires Inv(d) && AtCallback(d, w) && NextFn(d, w).LockList?
    ensures TurnStep(d, w) == Put(Put(d, ProgressList, Lock(d.progress)), w, Return(LoopStep(Get(d, w))))
  {
    hide ListOk, ShapeOk, LoopStep, RunIds, UserIds, FrameOk, Distinct, Lock, Return, RunOk, Rest, RegsOk, StatusOk;
    PreludeLane(w, Get(d, w));
  }

  /** The loop of `w` has gone on to `l`, and `progress` has been locked to `p`. */
  lemma LockPut<V>(d: Deferred<V>, w: Which, l: State<Fn, V>, p: State<Fn, V>)
    requires Inv(d) && w != ProgressList && FramesOk(Put(d, w, l)) && LaneOk(w, l) && LaneOk(ProgressList, p)
    requires Get(d, w).list.Some? && l.list == Get(d, w).list && l.memory == Get(d, w).memory
    requires BriefOf(Get(d, w)) == Brief(true, true, 2) && BriefOf(l) == Brief(true, true, 3)
    requires UserIds(Rest(l)) == UserIds(Rest(Get(d, w)))
    requires BusyOf(p) == BusyOf(d.progress) && p.stack.None?
    ensures Inv(Put(Put(d, ProgressList, p), w, l))
  {
    hide ListOk, ShapeOk, RunIds, UserIds, FrameOk, Distinct, RunOk, Rest, BusyOf, BriefOf;
  }

  lemma {:induction false} EndInv<V>(d: Deferred<V>, w: Which)
    requires Inv(d) && d.frames != [] && w == d.frames[|d.frames| - 1] && CanTurn(Get(d, w))
    requires !(Get(d, w).list.Some? && Get(d, w).firingIndex < Get(d, w).firingLength)
    ensures Inv(TurnStep(d, w))
  {
    EndLane(w, Get(d, w));
    TurnFrames(d, w, LoopStep(Get(d, w)));
    hide ListOk, ShapeOk, LoopStep, RunIds, UserIds, FrameOk, Distinct;
  }

  // ---------- what every run guarantees ----------

  /** A settled Deferred stays as it is. */
  lemma {:induction false} TurnStatus<V>(d: Deferred<V>, w: Which)
    requires Inv(d) && d.frames != [] && w == d.frames[|d.frames| - 1] && CanTurn(Get(d, w))
    ensures d.status != Pending ==> TurnStep(d, w).status == d.status
  {
    hide ListOk, ShapeOk, FramesOk, RegsOk, RunsOk;
    if AtCallback(d, w) && NextFn(d, w).SetStatus? {
      PreludeLane(w, Get(d, w));
      hide LoopStep;
      assert Stage(Get(d, w)) == 0;
    }
  }

  lemma {:induction false} StepStatus<V>(d: Deferred<V>, a: Action<V>)
    requires Inv(d) && Enabled(d, a)
    ensures d.status != Pending ==> Step(d, a).status == d.status
  {
    hide ListOk, ShapeOk, FrameOk, Distinct, StatusOk, RegsOk, RunsOk, Add, FireWith, LoopStep, Return;
    if a.Turn? {
      InnermostCanTurn(d);
      TurnStatus(d, d.frames[|d.frames| - 1]);
    }
  }

  /**
   * Over every run, including calls made from inside running callbacks, the status leaves `Pending`
   * at most once: whatever it has become after some actions it still is after any more of them.
   */
  lemma {:induction false} SettlesAtMostOnce<V>(acts: seq<Action<V>>, more: seq<Action<V>>)
    ensures Exec(acts).status != Pending ==> Exec(acts + more).status == Exec(acts).status
    decreases |more|
  {
    hide Inv, Step;
    if more == [] {
      assert acts + more == acts;
    } else {
      var front := more[..|more| - 1];
      SettlesAtMostOnce(acts, front);
      assert (acts + more)[..|acts + more| - 1] == acts + front;
      var d, a := Exec(acts + front), more[|more| - 1];
      if Enabled(d, a) { StepStatus(d, a); }
    }
  }

  /**
   * Over every run: no fail callback has run or ever runs once the Deferred is resolved, no done
   * callback once it is rejected, and every such callback that ran found the status already final
   * and the rival list already disabled.
   */
  lemma {:induction false} OnlyTheWinnersRun<V>(acts: seq<Action<V>>, more: seq<Action<V>>, i: nat)
    ensures i < |Exec(acts + more).runs| ==>
      var d, r := Exec(acts + more), Exec(acts + more).runs[i];
      && (r.which != ProgressList ==> r.status == Final(r.which) == d.status && r.rivalDisabled)
      && (Exec(acts).status == Resolved ==> r.which != FailList)
      && (Exec(acts).status == Rejected ==> r.which != DoneList)
  {
    var d := Exec(acts + more);
    if i < |d.runs| {
      assert RunOk(d.runs[i], d.status, d.done.memory, d.fail.memory);
      SettlesAtMostOnce(acts, more);
    }
  }

  /**
   * Over every run, once the JavaScript stack is empty: a resolved Deferred has invoked every `done`
   * registration exactly once, in registration order, whenever it was made, and no `fail` registration;
   * a rejected one the other way round; a pending one neither.
   */
  lemma {:induction false} RegistrationsRunInOrder<V>(acts: seq<Action<V>>)
    ensures var d := Exec(acts); d.frames == [] ==>
      && RunIds(d.runs, DoneList) == (if d.status == Resolved then d.doneRegs else [])
      && RunIds(d.runs, FailList) == (if d.status == Rejected then d.failRegs else [])
  {
    var d := Exec(acts);
    hide RunIds, UserIds, LaneOk, RunsOk;
    if d.frames == [] && d.status == Resolved { IdleRest(d, DoneList); }
    if d.frames == [] && d.status == Rejected { IdleRest(d, FailList); }
    NoRunsOf(d, DoneList);
    NoRunsOf(d, FailList);
    assert RunIds(d.runs, DoneList) + [] == RunIds(d.runs, DoneList);
    assert RunIds(d.runs, FailList) + [] == RunIds(d.runs, FailList);
  }

  lemma {:induction false} IdleRest<V>(d: Deferred<V>, w: Which)
    requires Inv(d) && w != ProgressList && d.frames == [] && d.status == Final(w)
    ensures WellFormed(Get(d, w)) && Get(d, w).list.Some? && UserIds(Rest(Get(d, w))) == []
  {
    hide RegsOk, RunsOk, RunIds;
  }

  lemma {:induction false} NoRunsOf<V>(d: Deferred<V>, w: Which)
    requires Inv(d) && w != ProgressList
    ensures d.status != Final(w) ==> RunIds(d.runs, w) == []
  {
    if d.status != Final(w) {
      forall i | 0 <= i < |d.runs|
        ensures d.runs[i].which != w
      {
        assert RunOk(d.runs[i], d.status, d.done.memory, d.fail.memory);
      }
      NoRunIds(d.runs, w);
    }
  }

  /**
   * All the `done` or `fail` callbacks of a run get the arguments of the one request that their list
   * accepted, whether they were registered before or after it; a later `resolve` or `reject` adds nothing.
   */
  lemma {:induction false} ArgumentsOfTheFirstRequest<V>(acts: seq<Action<V>>, i: nat)
    ensures i < |Exec(acts).runs| && Exec(acts).runs[i].which != ProgressList ==>
      var d, r := Exec(acts), Exec(acts).runs[i];
      Get(d, r.which).accepted == [r.args] && Get(d, Rival(r.which)).accepted == []
  {
    var d := Exec(acts);
    hide Exec, RegsOk, FrameOk, Distinct;
    if i < |d.runs| && d.runs[i].which != ProgressList {
      assert RunOk(d.runs[i], d.status, d.done.memory, d.fail.memory);
    }
  }

  // ---------- runs, told from the actions alone ----------

  /** The first call of `resolve` or `reject`. */
  ghost function FirstRequest<V>(acts: seq<Action<V>>): Option<Action<V>> {
    if acts == [] then None
    else
      var n := |acts| - 1;
      var first := FirstRequest(acts[..n]);
      if first.Some? then first
      else if acts[n].Fire? && acts[n].which != ProgressList && Enabled(Exec(acts[..n]), acts[n]) then Some(acts[n])
      else None
  }

  /** The arguments of the calls of `notify` before that. */
  ghost function Notified<V>(acts: seq<Action<V>>): seq<V> {
    if acts == [] then []
    else
      var n := |acts| - 1;
      Notified(acts[..n])
      + if acts[n].Fire? && acts[n].which == ProgressList && FirstRequest(acts[..n]).None?
             && Enabled(Exec(acts[..n]), acts[n])
          then [acts[n].args] else []
  }

  /** The callbacks registered on a list. */
  ghost function Registered<V>(acts: seq<Action<V>>, w: Which): seq<nat> {
    if acts == [] then []
    else
      var n := |acts| - 1;
      Registered(acts[..n], w)
      + if acts[n].Register? && acts[n].which == w && Enabled(Exec(acts[..n]), acts[n]) then acts[n].ids else []
  }

  /** A list has taken a request, or has not. */
  ghost predicate Scored<V>(l: State<Fn, V>, r: State<Fn, V>, asked: Option<V>) {
    if asked.Some? && Accepts(l) then r.fired && r.accepted == l.accepted + [asked.value]
    else r.fired == l.fired && r.accepted == l.accepted
  }

  /** What an action asks of a list. */
  ghost function AskOf<V>(a: Action<V>, w: Which): Option<V> {
    if a.Fire? && a.which == w then Some(a.args) else None
  }

  lemma AddScored<V>(l: State<Fn, V>, fns: seq<Fn>)
    requires WellFormed(l) && (l.memory.Some? ==> l.fired)
    ensures Scored(l, Add(l, fns), None)
  {
    hide PushAll, SerialSet;
  }

  lemma LoopScored<V>(l: State<Fn, V>)
    requires CanTurn(l)
    ensures Scored(l, LoopStep(l), None) && Scored(l, Return(LoopStep(l)), None)
  {
    hide Serials, SerialSet;
  }

  /** The three lists before and after a step. */
  ghost predicate AllScored<V>(d: Deferred<V>, a: Action<V>, r: Deferred<V>) {
    && Scored(d.done, r.done, AskOf(a, DoneList)) && Scored(d.fail, r.fail, AskOf(a, FailList))
    && Scored(d.progress, r.progress, AskOf(a, ProgressList))
  }

  lemma TurnScored<V>(d: Deferred<V>, w: Which)
    requires d.frames != [] && w == d.frames[|d.frames| - 1] && CanTurn(Get(d, w))
    ensures AllScored(d, Turn, TurnStep(d, w))
  {
    LoopScored(Get(d, w));
    var l := LoopStep(Get(d, w));
    if l.running {
      InLoop(Get(d, w));
      InvokeScored(Put(d, w, l), w, l.list.value[l.firingIndex].fn, l.data.value);
    }
    hide LoopStep, CanTurn, Invoke;
  }

  lemma InLoop<V>(l: State<Fn, V>)
    requires CanTurn(l) && LoopStep(l).running
    ensures var r := LoopStep(l); r.list.Some? && 0 <= r.firingIndex < |r.list.value| && r.data.Some?
  {
    hide Serials, SerialSet;
  }

  lemma InvokeScored<V>(d: Deferred<V>, w: Which, fn: Fn, args: V)
    ensures AllScored(d, Turn, Invoke(d, w, fn, args))
  {
    hide Accepts, RunIds;
  }

  lemma MemoryFired<V>(d: Deferred<V>, w: Which)
    requires Inv(d)
    ensures WellFormed(Get(d, w)) && (Get(d, w).memory.Some? ==> Get(d, w).fired)
  {
    hide ShapeOk, FramesOk, StatusOk, RegsOk, RunsOk, WellFormed;
  }

  lemma PutScored<V>(d: Deferred<V>, w: Which, l: State<Fn, V>, a: Action<V>)
    requires Scored(Get(d, w), l, AskOf(a, w)) && forall v :: v != w ==> AskOf(a, v).None?
    ensures AllScored(d, a, Put(d, w, l)) && AllScored(d, a, Update(d, w, l))
  {
  }

  lemma RegisterScored<V>(d: Deferred<V>, w: Which, ids: seq<nat>)
    requires Inv(d)
    ensures AllScored(d, Register(w, ids), RegisterStep(d, w, ids))
  {
    MemoryFired(d, w);
    AddScored(Get(d, w), Users(ids));
    PutScored(NoteRegs(d, w, ids), w, Add(Get(d, w), Users(ids)), Register(w, ids));
    hide Inv, Add, Users, Update, Scored;
  }

  lemma FireScored<V>(d: Deferred<V>, w: Which, args: V)
    requires WellFormed(Get(d, w))
    ensures AllScored(d, Fire(w, args), FireStep(d, w, args))
  {
    PutScored(d, w, FireWith(Get(d, w), args), Fire(w, args));
    hide FireWith, Update, Scored, AllScored;
  }

  lemma StepScored<V>(d: Deferred<V>, a: Action<V>)
    requires Inv(d) && Enabled(d, a)
    ensures AllScored(d, a, Step(d, a))
  {
    hide Inv, RegisterStep, FireStep, TurnStep, AllScored, Put, Return;
    match a
    case Register(w, ids) => RegisterScored(d, w, ids);
    case Fire(w, args) =>
      ListsWellFormed(d, w);
      FireScored(d, w, args);
    case Turn =>
      InnermostCanTurn(d);
      TurnScored(d, d.frames[|d.frames| - 1]);
    case Back =>
      var w := d.frames[|d.frames| - 1];
      ReturnScored(Get(d, w));
      PutScored(d, w, Return(Get(d, w)), a);
  }

  lemma ReturnScored<V>(l: State<Fn, V>)
    ensures Scored(l, Return(l), None)
  {
  }

  /** Whenever user code has control, the status says which list was fired, and only a pending one takes a request. */
  lemma AtUserTurn<V>(d: Deferred<V>)
    requires Inv(d) && UserTurn(d)
    ensures d.status == (if d.done.fired then Resolved else if d.fail.fired then Rejected else Pending)
    ensures !(d.done.fired && d.fail.fired)
    ensures Accepts(d.done) <==> d.status == Pending
    ensures Accepts(d.fail) <==> d.status == Pending
    ensures d.status != Pending ==> d.progress.stack.None?
  {
    NoneLooping(d);
    hide FramesOk, RegsOk, RunsOk, UserTurn, HasPrelude, AllUsers;
  }

  /** Without a stack the progress list takes nothing any more; until a list is fired, it takes everything. */
  ghost predicate ProgressOk<V>(d: Deferred<V>) {
    && (d.progress.stack.None? ==> d.progress.fired || d.progress.list.None?)
    && (!d.done.fired && !d.fail.fired ==> d.progress.list.Some? && d.progress.stack.Some?)
  }

  lemma ProgressLoop<V>(l: State<Fn, V>)
    requires CanTurn(l) && (l.stack.None? ==> l.fired || l.list.None?)
    ensures var r := LoopStep(l);
      && (r.stack.None? ==> r.fired || r.list.None?)
      && (l.list.Some? && l.stack.Some? ==> r.list.Some? && r.stack.Some?)
  {
    hide Serials, SerialSet;
  }

  lemma ProgressInvoke<V>(d: Deferred<V>, w: Which, fn: Fn, args: V)
    requires d.progress.stack.None? ==> d.progress.fired || d.progress.list.None?
    requires d.progress.memory.Some? ==> d.progress.fired
    requires (w == ProgressList ==> fn.User?) && (!fn.User? ==> d.done.fired || d.fail.fired)
    requires !d.done.fired && !d.fail.fired ==> d.progress.list.Some? && d.progress.stack.Some?
    ensures ProgressOk(Invoke(d, w, fn, args))
  {
  }

  lemma ProgressTurn<V>(d: Deferred<V>, w: Which)
    requires Inv(d) && ProgressOk(d) && d.frames != [] && w == d.frames[|d.frames| - 1] && CanTurn(Get(d, w))
    ensures ProgressOk(TurnStep(d, w))
  {
    var l := LoopStep(Get(d, w));
    LoopScored(Get(d, w));
    if l.running {
      InLoop(Get(d, w));
      if !NextFn(d, w).User? { PreludeLane(w, Get(d, w)); }
      MemoryFired(d, ProgressList);
      RunningLoop(Get(d, w));
      hide Inv, LoopStep, Invoke, CanTurn;
      ProgressInvoke(Put(d, w, l), w, l.list.value[l.firingIndex].fn, l.data.value);
    } else {
      if w == ProgressList { ProgressLoop(d.progress); }
      hide Inv, LoopStep, Invoke;
    }
  }

  lemma RunningLoop<V>(l: State<Fn, V>)
    requires CanTurn(l) && LoopStep(l).running
    ensures var r := LoopStep(l);
      && l.list.Some? && l.firingIndex < l.firingLength && r.list == l.list && r.firingIndex == l.firingIndex
      && r.memory == l.memory && r.stack == l.stack && r.fired == l.fired
  {
    hide Serials, SerialSet;
  }

  lemma ProgressPut<V>(d: Deferred<V>, w: Which, l: State<Fn, V>)
    requires ProgressOk(d) && (Get(d, w).fired ==> l.fired)
    requires w == ProgressList ==> l.stack.None? == Get(d, w).stack.None? && l.list.None? == Get(d, w).list.None?
    ensures ProgressOk(Put(d, w, l)) && ProgressOk(Update(d, w, l))
  {
  }

  lemma ProgressStep<V>(d: Deferred<V>, a: Action<V>)
    requires Inv(d) && Enabled(d, a) && ProgressOk(d)
    ensures ProgressOk(Step(d, a))
  {
    hide RegisterStep, FireStep, TurnStep, ProgressOk, Put, Return, Inv;
    match a
    case Register(w, ids) => ProgressRegister(d, w, ids);
    case Fire(w, args) =>
      ListsWellFormed(d, w);
      ProgressFire(d, w, args);
    case Turn =>
      InnermostCanTurn(d);
      ProgressTurn(d, d.frames[|d.frames| - 1]);
    case Back =>
      var w := d.frames[|d.frames| - 1];
      ReturnKeeps(Get(d, w));
      ProgressPut(d, w, Return(Get(d, w)));
  }

  lemma ReturnKeeps<V>(l: State<Fn, V>)
    ensures var r := Return(l); r.fired == l.fired && r.stack == l.stack && r.list == l.list
  {
  }

  lemma ProgressRegister<V>(d: Deferred<V>, w: Which, ids: seq<nat>)
    requires Inv(d) && ProgressOk(d)
    ensures ProgressOk(RegisterStep(d, w, ids))
  {
    MemoryFired(d, w);
    AddScored(Get(d, w), Users(ids));
    AddKeeps(Get(d, w), Users(ids));
    ProgressPut(NoteRegs(d, w, ids), w, Add(Get(d, w), Users(ids)));
    hide Inv, Add, Users, Update;
  }

  lemma AddKeeps<V>(l: State<Fn, V>, fns: seq<Fn>)
    ensures var r := Add(l, fns); r.stack.None? == l.stack.None? && r.list.None? == l.list.None?
  {
    hide PushAll, SerialSet;
  }

  lemma ProgressFire<V>(d: Deferred<V>, w: Which, args: V)
    requires ProgressOk(d) && WellFormed(Get(d, w))
    ensures ProgressOk(FireStep(d, w, args))
  {
    FireKeeps(Get(d, w), args);
    ProgressPut(d, w, FireWith(Get(d, w), args));
    hide FireWith, Update, ProgressOk;
  }

  lemma FireKeeps<V>(l: State<Fn, V>, args: V)
    requires WellFormed(l)
    ensures var r := FireWith(l, args);
      (l.fired ==> r.fired) && r.stack.None? == l.stack.None? && r.list.None? == l.list.None?
  {
    hide SerialSet;
  }

  /** What the actions say has been requested is what the lists have taken. */
  ghost predicate Requested<V>(d: Deferred<V>, first: Option<Action<V>>, notified: seq<V>) {
    && ProgressOk(d) && d.progress.accepted == notified
    && match first
       case None => !d.done.fired && !d.fail.fired
       case Some(a) =>
         && a.Fire? && a.which != ProgressList
         && Get(d, a.which).fired && Get(d, a.which).accepted == [a.args] && !Get(d, Rival(a.which)).fired
  }

  lemma UnfiredEmpty<V>(d: Deferred<V>)
    requires Inv(d)
    ensures (!d.done.fired ==> d.done.accepted == []) && (!d.fail.fired ==> d.fail.accepted == [])
  {
    hide ShapeOk, FramesOk, StatusOk, RegsOk, RunsOk, WellFormed;
  }

  lemma RequestedStep<V>(d: Deferred<V>, a: Action<V>, first: Option<Action<V>>, notified: seq<V>)
    requires Inv(d) && Enabled(d, a) && Requested(d, first, notified)
    ensures Requested(Step(d, a), if first.None? && a.Fire? && a.which != ProgressList then Some(a) else first,
      notified + if first.None? && a.Fire? && a.which == ProgressList then [a.args] else [])
  {
    StepScored(d, a);
    ProgressStep(d, a);
    UnfiredEmpty(d);
    if a.Fire? { AtUserTurn(d); }
    assert notified + [] == notified;
    hide Step, Inv, UserTurn;
  }

  lemma {:induction false} RequestedAre<V>(acts: seq<Action<V>>)
    ensures Requested(Exec(acts), FirstRequest(acts), Notified(acts))
  {
    hide Inv, Step, Enabled, Requested;
    if acts == [] {
      NoneRequested<V>();
    } else {
      var n := |acts| - 1;
      RequestedAre(acts[..n]);
      var d := Exec(acts[..n]);
      if Enabled(d, acts[n]) {
        RequestedStep(d, acts[n], FirstRequest(acts[..n]), Notified(acts[..n]));
      } else {
        assert Notified(acts[..n]) + [] == Notified(acts[..n]);
      }
    }
  }

  lemma NoneRequested<V>()
    ensures Requested(New<V>(), None, [])
  {
    hide PushAll, Prelude;
  }

  lemma {:induction false} RegisteredAre<V>(acts: seq<Action<V>>)
    ensures Exec(acts).doneRegs == Registered(acts, DoneList) && Exec(acts).failRegs == Registered(acts, FailList)
  {
    hide Inv, Step, Enabled;
    if acts != [] {
      var n := |acts| - 1;
      RegisteredAre(acts[..n]);
      if Enabled(Exec(acts[..n]), acts[n]) { StepRecords(Exec(acts[..n]), acts[n]); }
    }
  }

  /**
   * Over every run, told from the actions alone: whenever user code has control, the Deferred is resolved if the
   * first call of `resolve` or `reject` was of `resolve`, rejected if it was of `reject`, and pending if there was
   * none; every done or fail callback that has run is of that list and got the arguments of that call; and once no
   * callback is in progress, those registered on that list have all run, in the order of registration.  Until then
   * `notify` has taken all its calls.
   */
  lemma OutcomeOf<V>(acts: seq<Action<V>>)
    ensures var d, first := Exec(acts), FirstRequest(acts);
      && (first.Some? ==> first.value.Fire? && first.value.which != ProgressList)
      && (UserTurn(d) ==> d.status == if first.None? then Pending else Final(first.value.which))
      && (forall i :: 0 <= i < |d.runs| && d.runs[i].which != ProgressList ==>
            first.Some? && d.runs[i].which == first.value.which && d.runs[i].args == first.value.args)
      && (d.frames == [] ==> forall w :: w != ProgressList ==>
            RunIds(d.runs, w) == if first.Some? && first.value.which == w then Registered(acts, w) else [])
      && d.progress.accepted == Notified(acts)
  {
    var d, first := Exec(acts), FirstRequest(acts);
    hide Exec, FirstRequest, Notified, Registered, RunIds, Inv;
    RequestedAre(acts);
    RegisteredAre(acts);
    RegistrationsRunInOrder(acts);
    if UserTurn(d) { AtUserTurn(d); }
    forall i | 0 <= i < |d.runs| && d.runs[i].which != ProgressList
      ensures first.Some? && d.runs[i].which == first.value.which && d.runs[i].args == first.value.args
    {
      ArgumentsOfTheFirstRequest(acts, i);
      UnfiredEmpty(d);
    }
  }

  /** What a callback returns makes no difference: a list goes on after one that returned false. */
  lemma AnswersIgnored<V>(acts: seq<Action<V>>, w: Which)
    requires Get(Exec(acts), w).running
    ensures ReturnFalse(Get(Exec(acts), w)) == Return(Get(Exec(acts), w))
  {
    var d := Exec(acts);
    assert LaneOk(w, Get(d, w)) && !Get(d, w).options.stopOnFalse;
  }

  // ---------- every run comes to rest ----------

  ghost predicate AllWellFormed<V>(d: Deferred<V>) {
    WellFormed(d.done) && WellFormed(d.fail) && WellFormed(d.progress)
  }

  ghost function Burden<V>(d: Deferred<V>): nat
    requires AllWellFormed(d)
  {
    Load(d.done) + Load(d.fail) + Load(d.progress)
  }

  ghost function BurdenOf<V>(acts: seq<Action<V>>): nat {
    AllLists(Exec(acts));
    Burden(Exec(acts))
  }

  lemma CutLoad<V>(l: State<Fn, V>)
    requires WellFormed(l)
    ensures WellFormed(Disable(l)) && Load(Disable(l)) <= Load(l)
    ensures WellFormed(Lock(l)) && Load(Lock(l)) <= Load(l)
  {
  }

  lemma ReturnLoad<V>(l: State<Fn, V>)
    requires WellFormed(l) && l.running
    ensures WellFormed(Return(l)) && Load(Return(l)) < Load(l)
  {
  }

  lemma PutBurden<V>(d: Deferred<V>, w: Which, l: State<Fn, V>)
    requires AllWellFormed(d) && WellFormed(l)
    ensures AllWellFormed(Put(d, w, l)) && Burden(Put(d, w, l)) == Burden(d) - Load(Get(d, w)) + Load(l)
    ensures Get(Put(d, w, l), w) == l
  {
    hide WellFormed, Load;
  }

  lemma InvokeBurden<V>(d: Deferred<V>, w: Which, fn: Fn, args: V)
    requires AllWellFormed(d) && Get(d, w).running
    requires fn.DisableList? || fn.LockList? ==> fn.target != w
    ensures AllWellFormed(Invoke(d, w, fn, args)) && Burden(Invoke(d, w, fn, args)) <= Burden(d)
  {
    hide WellFormed, Load, Disable, Lock, Return;
    match fn
    case User(_) =>
    case SetStatus(to) => SetBurden(d, w, to);
    case DisableList(target) =>
      CutLoad(Get(d, target));
      PutBurden(d, target, Disable(Get(d, target)));
      ReturnLoad(Get(d, w));
      PutBurden(Put(d, target, Disable(Get(d, target))), w, Return(Get(d, w)));
    case LockList(target) =>
      CutLoad(Get(d, target));
      PutBurden(d, target, Lock(Get(d, target)));
      ReturnLoad(Get(d, w));
      PutBurden(Put(d, target, Lock(Get(d, target))), w, Return(Get(d, w)));
  }

  lemma SetBurden<V>(d: Deferred<V>, w: Which, to: Status)
    requires AllWellFormed(d) && Get(d, w).running
    ensures var r := Put(d.(status := to), w, Return(Get(d, w))); AllWellFormed(r) && Burden(r) <= Burden(d)
  {
    hide WellFormed, Load, Return;
    ReturnLoad(Get(d, w));
    PutBurden(d.(status := to), w, Return(Get(d, w)));
  }

  lemma TurnBurden<V>(d: Deferred<V>, w: Which)
    requires Inv(d) && d.frames != [] && w == d.frames[|d.frames| - 1] && CanTurn(Get(d, w))
    ensures AllWellFormed(d) && AllWellFormed(TurnStep(d, w)) && Burden(TurnStep(d, w)) < Burden(d)
  {
    AllLists(d);
    LoopLoad(Get(d, w));
    var l := LoopStep(Get(d, w));
    PutBurden(d, w, l);
    if l.running {
      InLoop(Get(d, w));
      RunningLoop(Get(d, w));
      if !NextFn(d, w).User? { PreludeLane(w, Get(d, w)); }
      hide Inv, LoopStep, CanTurn, Invoke, Load, WellFormed;
      InvokeBurden(Put(d, w, l), w, l.list.value[l.firingIndex].fn, l.data.value);
    }
    hide Inv, LoopStep, CanTurn, Invoke, Load, WellFormed;
  }

  lemma AllLists<V>(d: Deferred<V>)
    requires Inv(d)
    ensures AllWellFormed(d)
  {
    hide ListOk, ShapeOk, FramesOk, StatusOk, RegsOk, RunsOk, WellFormed;
  }

  /** A turn of the innermost loop, or the return of its callback, brings the end of it all nearer. */
  lemma BurdenFalls<V>(d: Deferred<V>)
    requires Inv(d) && d.frames != []
    ensures var a := if UserTurn(d) then Back else Turn;
      && AllWellFormed(d) && Enabled(d, a) && AllWellFormed(Step(d, a)) && Burden(Step(d, a)) < Burden(d)
  {
    AllLists(d);
    var w := d.frames[|d.frames| - 1];
    if UserTurn(d) {
      hide Inv, Load, WellFormed, Return;
      ReturnLoad(Get(d, w));
      PutBurden(d, w, Return(Get(d, w)));
    } else {
      InnermostCanTurn(d);
      TurnBurden(d, w);
      hide Inv, TurnStep, Burden;
    }
  }

  lemma ExecStep<V>(acts: seq<Action<V>>, a: Action<V>)
    requires Enabled(Exec(acts), a)
    ensures Exec(acts + [a]) == Step(Exec(acts), a)
  {
    assert (acts + [a])[..|acts|] == acts;
    hide Inv, Step, Enabled;
  }

  /** What happens next if user code does nothing. */
  lemma NextAct<V>(acts: seq<Action<V>>) returns (a: Action<V>)
    requires Exec(acts).frames != []
    ensures (a.Turn? || a.Back?) && Enabled(Exec(acts), a) && BurdenOf(acts + [a]) < BurdenOf(acts)
  {
    hide Inv, Step, Enabled, Burden;
    a := if UserTurn(Exec(acts)) then Back else Turn;
    BurdenFalls(Exec(acts));
    ExecStep(acts, a);
  }

  /** Whatever has been done, if nothing more is registered or requested, the callbacks in progress come to an end. */
  lemma {:induction false} ComesToRest<V>(acts: seq<Action<V>>) returns (more: seq<Action<V>>)
    ensures Exec(acts + more).frames == []
    ensures forall i :: 0 <= i < |more| ==> more[i].Turn? || more[i].Back?
    decreases BurdenOf(acts)
  {
    hide Inv, Step, Enabled, Burden, BurdenOf;
    var d := Exec(acts);
    if d.frames == [] {
      more := [];
      assert acts + more == acts;
    } else {
      var a := NextAct(acts);
      more := ComesToRest(acts + [a]);
      assert (acts + [a]) + more == acts + ([a] + more);
      more := [a] + more;
    }
  }

  /** One more action registers what it says, and lets at most one callback run. */
  ghost predicate Records<V>(d: Deferred<V>, a: Action<V>, r: Deferred<V>) {
    && r.doneRegs == d.doneRegs + (if a.Register? && a.which == DoneList then a.ids else [])
    && r.failRegs == d.failRegs + (if a.Register? && a.which == FailList then a.ids else [])
    && d.runs <= r.runs && |r.runs| <= |d.runs| + (if a.Register? then 0 else 1)
  }

  lemma PutRecords<V>(d: Deferred<V>, w: Which, l: State<Fn, V>)
    ensures var r := Put(d, w, l); r.doneRegs == d.doneRegs && r.failRegs == d.failRegs && r.runs == d.runs
    ensures var r := Update(d, w, l); r.doneRegs == d.doneRegs && r.failRegs == d.failRegs && r.runs == d.runs
  {
  }

  lemma InvokeRecords<V>(d: Deferred<V>, w: Which, fn: Fn, args: V)
    ensures Records(d, Turn, Invoke(d, w, fn, args))
  {
    hide Put, Return, Disable, Lock, Get;
    match fn
    case User(id) =>
    case SetStatus(to) => PutRecords(d.(status := to), w, Return(Get(d, w)));
    case DisableList(target) =>
      var r := Put(d, target, Disable(Get(d, target)));
      PutRecords(d, target, Disable(Get(d, target)));
      PutRecords(r, w, Return(Get(r, w)));
    case LockList(target) =>
      var r := Put(d, target, Lock(Get(d, target)));
      PutRecords(d, target, Lock(Get(d, target)));
      PutRecords(r, w, Return(Get(r, w)));
  }

  lemma TurnRecords<V>(d: Deferred<V>, w: Which)
    requires d.frames != [] && w == d.frames[|d.frames| - 1] && CanTurn(Get(d, w))
    ensures Records(d, Turn, TurnStep(d, w))
  {
    hide Put, Invoke, Get, Serials, SerialSet;
    var l := LoopStep(Get(d, w));
    PutRecords(d, w, l);
    if l.running {
      InvokeRecords(Put(d, w, l), w, l.list.value[l.firingIndex].fn, l.data.value);
    }
  }

  lemma ListsWellFormed<V>(d: Deferred<V>, w: Which)
    requires Inv(d)
    ensures WellFormed(Get(d, w))
  {
    hide ListOk, ShapeOk, FramesOk, StatusOk, RegsOk, RunsOk, WellFormed;
  }

  lemma StepRecords<V>(d: Deferred<V>, a: Action<V>)
    requires Inv(d) && Enabled(d, a)
    ensures Records(d, a, Step(d, a))
  {
    hide Inv, Add, FireWith, Return, TurnStep, Put, Update, Get, Users;
    match a
    case Register(w, ids) => PutRecords(NoteRegs(d, w, ids), w, Add(Get(d, w), Users(ids)));
    case Fire(w, args) =>
      ListsWellFormed(d, w);
      PutRecords(d, w, FireWith(Get(d, w), args));
    case Turn =>
      InnermostCanTurn(d);
      TurnRecords(d, d.frames[|d.frames| - 1]);
    case Back => var w := d.frames[|d.frames| - 1]; PutRecords(d, w, Return(Get(d, w)));
  }

  lemma ExecMore<V>(acts: seq<Action<V>>, a: Action<V>)
    requires Enabled(Exec(acts), a)
    ensures Records(Exec(acts), a, Exec(acts + [a]))
  {
    assert (acts + [a])[..|acts|] == acts;
    hide Inv, Step, Enabled, Records;
    StepRecords(Exec(acts), a);
  }

  /** What runs was registered. */
  lemma RunRegistered<V>(acts: seq<Action<V>>, i: nat)
    requires i < |Exec(acts).runs| && Exec(acts).runs[i].which != ProgressList
    ensures Exec(acts).runs[i].id in Regs(Exec(acts), Exec(acts).runs[i].which)
  {
    hide Exec, RunIds;
    var r := Exec(acts).runs[i];
    RunIdsBegin(acts, r.which);
    var k := RunIdsAt(Exec(acts).runs, r.which, i);
    assert RunIds(Exec(acts).runs, r.which)[k] == Regs(Exec(acts), r.which)[k];
  }

  /** The ids of a list's runs are the beginning of its registrations. */
  lemma RunIdsBegin<V>(acts: seq<Action<V>>, w: Which)
    requires w != ProgressList
    ensures RunIds(Exec(acts).runs, w) <= Regs(Exec(acts), w)
  {
    hide RunIds, UserIds, RunsOk, Exec, Rest, ListOk, ShapeOk;
    var d := Exec(acts);
    assert RegsOk(w, Get(d, w), d.runs, Regs(d, w));
  }

  lemma {:induction false} RunIdsAt<V>(runs: seq<Run<V>>, w: Which, i: nat) returns (k: nat)
    requires i < |runs| && runs[i].which == w
    ensures k == |RunIds(runs[..i], w)| < |RunIds(runs, w)| && RunIds(runs, w)[k] == runs[i].id
  {
    var n := |runs| - 1;
    if i < n {
      k := RunIdsAt(runs[..n], w, i);
      assert runs[..n][..i] == runs[..i];
    } else {
      k := |RunIds(runs[..i], w)|;
    }
  }

  lemma {:induction false} RunIdsGrow<V>(runs: seq<Run<V>>, w: Which, i: nat, j: nat)
    requires i < j <= |runs| && runs[i].which == w
    ensures |RunIds(runs[..i], w)| < |RunIds(runs[..j], w)|
  {
    var k := RunIdsAt(runs[..j], w, i);
    assert runs[..j][..i] == runs[..i];
  }

  /**
   * Over every run: all that is delivered goes to one of `done` and `fail`, and to each callback once that was not
   * registered twice.
   */
  lemma DeliveredOnce<V>(acts: seq<Action<V>>, i: nat, j: nat)
    ensures
      var d := Exec(acts);
      i < j < |d.runs| && d.runs[i].which != ProgressList && d.runs[j].which != ProgressList ==>
        && d.runs[i].which == d.runs[j].which
        && (Single(Regs(d, d.runs[i].which), d.runs[i].id) ==> d.runs[i].id != d.runs[j].id)
  {
    hide RunIds, UserIds, LaneOk, RunsOk, Exec;
    var d := Exec(acts);
    if i < j < |d.runs| && d.runs[i].which != ProgressList && d.runs[j].which != ProgressList {
      var w := d.runs[i].which;
      OnlyWinners(acts, i);
      OnlyWinners(acts, j);
      RunIdsBegin(acts, w);
      var a := RunIdsAt(d.runs, w, i);
      var b := RunIdsAt(d.runs, w, j);
      RunIdsGrow(d.runs, w, i, j);
    }
  }

  lemma OnlyWinners<V>(acts: seq<Action<V>>, i: nat)
    requires i < |Exec(acts).runs| && Exec(acts).runs[i].which != ProgressList
    ensures Exec(acts).status == Final(Exec(acts).runs[i].which)
  {
    hide *;
    assert acts + [] == acts;
    OnlyTheWinnersRun(acts, [], i);
  }

  /** The id does not stand twice. */
  ghost predicate Single(ids: seq<nat>, id: nat) {
    forall i, j :: 0 <= i < j < |ids| ==> !(ids[i] == id == ids[j])
  }
}
