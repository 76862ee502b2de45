/**
 * The callback slot protocol (rsmpv/src/slot.rs) as an interleaved step system.
 *
 * Any number of activities run at once; an activity is one call of `set`, of
 * `teardown`, or one dispatch of the trampoline by libmpv, together with the program
 * point it has reached.  One step is one atomic action of the source: a lock operation,
 * a write to the cell, one reference count operation, one libmpv call, one piece of user
 * code.  Reference counts are plain integers that steps increment and decrement; nothing
 * here assumes that they are accurate.
 */
module SlotSteps {
  import opened Common

  // ----- program points -----

  /** `set`: take the registration lock, leak one slot reference unless that was done,
      replace the stored closure under the slot lock, call `register`, release the
      registration lock, drop the previous closure. */
  datatype SetPc =
    | AskReg | CheckLeaked | MarkLeaked | AskSlot | Replace | LeaveSlot
    | AskDispatch | StoreCallback | InRegister | LeaveReg | DropPrevious | FreePrevious

  /** `teardown`: take the registration lock, unregister, take the closure out of the
      cell, `destroy`, drop the closure.  The slot guard is a temporary of the block's tail
      expression, so under edition 2021 it is released after the block's local `_reg`. */
  datatype TdPc =
    | TdAskReg | TdAskDispatch | TdUnregister | TdAskSlot | TdTake | TdLeaveReg | TdLeaveSlot
    | TdDestroy | TdDropTaken | TdFreeTaken | TdEnd

  /** `trampoline`: clone the stored closure under the slot lock, invoke it outside. */
  datatype DispPc =
    | AwaitDispatch | Enter | Clone | LeaveClone | Call | Invoking | DropClone | FreeClone | Return

  /** How libmpv runs a dispatch: with no lock of its own, under its dispatch lock, or
      synchronously on the thread that is inside a registration call. */
  datatype Mode = Unlocked | Locked | Nested

  /** `final` marks the teardown that runs from the owner's Drop. */
  datatype Act =
    | Setting(pc: SetPc, c: nat, prev: Option<nat>, child: Option<nat>)
    | Tearing(tpc: TdPc, final: bool, taken: Option<nat>)
    | Dispatching(dpc: DispPc, mode: Mode, got: Option<nat>)
    | Done

  // ----- state -----

  datatype LockId = Registration | Dispatch | Slot

  /** A closure: the strong count of its `Arc`, and how often its destructor has run. */
  datatype Closure = Closure(strong: int, drops: int)

  /** Operations in the order in which they took the registration lock. */
  datatype Op = SetOp(c: nat) | TeardownOp

  datatype Owner = Alive | Dropping | Gone

  datatype Shared = Shared(
    leaked: bool,        // the bool behind the registration lock
    slotRefs: int,       // strong count of the slot allocation
    owner: Owner,        // the owning CallbackSlot
    cell: Option<nat>,   // the stored closure
    registered: bool,    // libmpv currently has trampoline and context registered
    ctxKnown: bool,      // libmpv has ever been given the context pointer
    destroyed: bool,     // the owner's destroy call has run
    log: seq<Op>)

  datatype State = State(
    locks: map<LockId, nat>,   // holders; a lock that is not a key is free
    sh: Shared,
    closures: seq<Closure>,
    acts: seq<Act>)

  function Init(): State {
    State(map[], Shared(false, 1, Alive, None, false, false, false, []), [], [])
  }

  function Strong(cs: seq<Closure>, c: nat): int {
    if c < |cs| then cs[c].strong else 0
  }

  function Drops(cs: seq<Closure>, c: nat): int {
    if c < |cs| then cs[c].drops else 0
  }

  // ----- what one step does -----

  datatype LockAct = Keep | Take(l: LockId) | Give(l: LockId)

  /** The lock operation at a program point. */
  function LockOf(a: Act): LockAct {
    match a
    case Setting(pc, _, _, _) =>
      (match pc
       case AskReg => Take(Registration)
       case AskSlot => Take(Slot)
       case LeaveSlot => Give(Slot)
       case AskDispatch => Take(Dispatch)
       case InRegister => Give(Dispatch)
       case LeaveReg => Give(Registration)
       case _ => Keep)
    case Tearing(pc, _, _) =>
      (match pc
       case TdAskReg => Take(Registration)
       case TdAskDispatch => Take(Dispatch)
       case TdUnregister => Give(Dispatch)
       case TdAskSlot => Take(Slot)
       case TdLeaveReg => Give(Registration)
       case TdLeaveSlot => Give(Slot)
       case _ => Keep)
    case Dispatching(pc, mode, _) =>
      (match pc
       case AwaitDispatch => Take(Dispatch)
       case Enter => Take(Slot)
       case LeaveClone => Give(Slot)
       case Return => if mode.Locked? then Give(Dispatch) else Keep
       case _ => Keep)
    case Done => Keep
  }

  datatype RefAct = NoRef | New(c: nat) | Inc(c: nat) | Dec(c: nat) | Free(c: nat)

  /** The reference count operation at a program point. */
  function RefOf(cell: Option<nat>, a: Act): RefAct {
    match a
    case Setting(pc, c, prev, _) =>
      if pc.Replace? then New(c)
      else if pc.DropPrevious? && prev.Some? then Dec(prev.value)
      else if pc.FreePrevious? && prev.Some? then Free(prev.value)
      else NoRef
    case Tearing(pc, _, taken) =>
      if pc.TdDropTaken? && taken.Some? then Dec(taken.value)
      else if pc.TdFreeTaken? && taken.Some? then Free(taken.value)
      else NoRef
    case Dispatching(pc, _, got) =>
      if pc.Clone? && cell.Some? then Inc(cell.value)
      else if pc.DropClone? && got.Some? then Dec(got.value)
      else if pc.FreeClone? && got.Some? then Free(got.value)
      else NoRef
    case Done => NoRef
  }

  /** The effect of a step on the shared fields. */
  function Effect(sh: Shared, a: Act): Shared {
    match a
    case Setting(pc, c, prev, _) =>
      (match pc
       case AskReg => sh.(log := sh.log + [SetOp(c)])
       case CheckLeaked => if sh.leaked then sh else sh.(slotRefs := sh.slotRefs + 1)
       case MarkLeaked => sh.(leaked := true)
       case Replace => sh.(cell := Some(c))
       case StoreCallback => sh.(registered := true, ctxKnown := true)
       case _ => sh)
    case Tearing(pc, final, _) =>
      (match pc
       case TdAskReg => sh.(log := sh.log + [TeardownOp])
       case TdUnregister => sh.(registered := false)
       case TdTake => sh.(cell := None)
       case TdDestroy => sh.(destroyed := sh.destroyed || final)
       case TdEnd => if final then sh.(slotRefs := sh.slotRefs - 1, owner := Gone) else sh
       case _ => sh)
    case Dispatching(_, _, _) => sh
    case Done => sh
  }

  /** The next program point.  `last` says that a Dec at this point reaches zero, which
      hands the closure's destructor to this activity. */
  function Next(sh: Shared, last: bool, a: Act): Act {
    match a
    case Setting(pc, c, prev, child) =>
      (match pc
       case AskReg => a.(pc := CheckLeaked)
       case CheckLeaked => a.(pc := if sh.leaked then AskSlot else MarkLeaked)
       case MarkLeaked => a.(pc := AskSlot)
       case AskSlot => a.(pc := Replace)
       case Replace => a.(pc := LeaveSlot, prev := sh.cell)
       case LeaveSlot => a.(pc := AskDispatch)
       case AskDispatch => a.(pc := StoreCallback)
       case StoreCallback => a.(pc := InRegister, child := None)
       case InRegister => a.(pc := LeaveReg)
       case LeaveReg => a.(pc := DropPrevious)
       case DropPrevious => if prev.Some? && last then a.(pc := FreePrevious) else Done
       case FreePrevious => Done)
    case Tearing(pc, final, taken) =>
      (match pc
       case TdAskReg => a.(tpc := TdAskDispatch)
       case TdAskDispatch => a.(tpc := TdUnregister)
       case TdUnregister => a.(tpc := TdAskSlot)
       case TdAskSlot => a.(tpc := TdTake)
       case TdTake => a.(tpc := TdLeaveReg, taken := sh.cell)
       case TdLeaveReg => a.(tpc := TdLeaveSlot)
       case TdLeaveSlot => a.(tpc := TdDestroy)
       case TdDestroy => a.(tpc := TdDropTaken)
       case TdDropTaken => a.(tpc := if taken.Some? && last then TdFreeTaken else TdEnd)
       case TdFreeTaken => a.(tpc := TdEnd)
       case TdEnd => Done)
    case Dispatching(pc, mode, got) =>
      (match pc
       case AwaitDispatch => a.(dpc := Enter)
       case Enter => a.(dpc := Clone)
       case Clone => a.(dpc := LeaveClone, got := sh.cell)
       case LeaveClone => a.(dpc := if got.Some? then Call else Return)
       case Call => a.(dpc := Invoking)
       case Invoking => a.(dpc := DropClone)
       case DropClone => a.(dpc := if got.Some? && last then FreeClone else Return)
       case FreeClone => a.(dpc := Return)
       case Return => Done)
    case Done => Done
  }

  function ApplyLock(locks: map<LockId, nat>, i: nat, x: LockAct): map<LockId, nat> {
    match x
    case Keep => locks
    case Take(l) => locks[l := i]
    case Give(l) => locks - {l}
  }

  /** `Arc::new` starts a count at one whatever was there. */
  function ApplyRef(cs: seq<Closure>, x: RefAct): seq<Closure> {
    if x.NoRef? || x.c >= |cs| then cs
    else
      var k := cs[x.c];
      cs[x.c := match x
                case New(_) => Closure(1, k.drops)
                case Inc(_) => Closure(k.strong + 1, k.drops)
                case Dec(_) => Closure(k.strong - 1, k.drops)
                case Free(_) => Closure(k.strong, k.drops + 1)]
  }

  predicate ReachesZero(cs: seq<Closure>, x: RefAct) {
    x.Dec? && Strong(cs, x.c) - 1 == 0
  }

  function AdvanceBy(s: State, i: nat): State
    requires i < |s.acts|
  {
    var a := s.acts[i];
    var x := RefOf(s.sh.cell, a);
    State(ApplyLock(s.locks, i, LockOf(a)),
          Effect(s.sh, a),
          ApplyRef(s.closures, x),
          s.acts[i := Next(s.sh, ReachesZero(s.closures, x), a)])
  }

  // ----- which steps are possible -----

  datatype Label =
    | StartSet
    | StartTeardown(final: bool)
    | StartDispatch(locked: bool)
    | StartNested(parent: nat)
    | Advance(i: nat)

  predicate ChildDone(s: State, child: Option<nat>) {
    child.None? || (child.value < |s.acts| && s.acts[child.value].Done?)
  }

  /** An activity waits for the lock it is about to take; a registration call for the
      dispatch it runs synchronously; the final destroy for dispatches under libmpv's lock. */
  predicate CanAdvance(s: State, a: Act) {
    && !a.Done?
    && (LockOf(a).Take? ==> LockOf(a).l !in s.locks)
    && (a.Setting? && a.pc.InRegister? ==> ChildDone(s, a.child))
    && (a.Tearing? && a.tpc.TdDestroy? && a.final ==> Dispatch !in s.locks)
  }

  /**
   * `set` and `teardown` borrow the owner; the owner's Drop borrows it exclusively.
   * libmpv may dispatch, on as many threads as it likes and however late, once it has ever
   * been given the context pointer; while a registration call is running it may also
   * dispatch synchronously, any number of times.
   */
  predicate Enabled(s: State, l: Label) {
    match l
    case StartSet => s.sh.owner.Alive?
    case StartTeardown(final) =>
      s.sh.owner.Alive? && (final ==> forall i :: 0 <= i < |s.acts| ==> s.acts[i].Done? || s.acts[i].Dispatching?)
    case StartDispatch(_) => s.sh.ctxKnown
    case StartNested(p) =>
      p < |s.acts| && s.acts[p].Setting? && s.acts[p].pc.InRegister? && ChildDone(s, s.acts[p].child)
    case Advance(i) => i < |s.acts| && CanAdvance(s, s.acts[i])
  }

  function Apply(s: State, l: Label): State
    requires Enabled(s, l)
  {
    match l
    case StartSet =>
      s.(closures := s.closures + [Closure(0, 0)], acts := s.acts + [Setting(AskReg, |s.closures|, None, None)])
    case StartTeardown(final) =>
      s.(sh := if final then s.sh.(owner := Dropping) else s.sh, acts := s.acts + [Tearing(TdAskReg, final, None)])
    case StartDispatch(locked) =>
      var act := if locked then Dispatching(AwaitDispatch, Locked, None) else Dispatching(Enter, Unlocked, None);
      s.(acts := s.acts + [act])
    case StartNested(p) =>
      s.(acts := s.acts[p := s.acts[p].(child := Some(|s.acts|))] + [Dispatching(Enter, Nested, None)])
    case Advance(i) => AdvanceBy(s, i)
  }

  // ----- runs -----

  predicate Legal(s: State, ls: seq<Label>)
    decreases |ls|
  {
    ls == [] || (Enabled(s, ls[0]) && Legal(Apply(s, ls[0]), ls[1..]))
  }

  function Exec(s: State, ls: seq<Label>): State
    requires Legal(s, ls)
    decreases |ls|
  {
    if ls == [] then s else Exec(Apply(s, ls[0]), ls[1..])
  }

  ghost predicate Reachable(s: State) {
    exists ls :: Legal(Init(), ls) && Exec(Init(), ls) == s
  }
}
