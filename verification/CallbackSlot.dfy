/**
 * `CallbackSlot` in the source's own form: an object whose fields its methods update in
 * place, in the source's order.  Beside the fields stands the whole protocol of SlotSteps,
 * with every other thread in it.  After every update the protocol takes the steps the
 * update stands for and must lead to the same state, so each state of the object is a
 * reachable state of the protocol, everything proved there holds of it, and an update made
 * out of order would not verify.
 *
 * Other threads, and libmpv, move whenever a method may have to wait: what they try is an
 * arbitrary schedule, of which they do what the protocol allows.  A method that waits for a
 * lock waits until the others have released it.
 */
module CallbackSlots {
  import opened Common
  import opened SlotSteps
  import opened SlotInvariant
  import opened SlotTheorems
  import opened SlotPasses

  lemma IsReachable(m: State, r: seq<Label>)
    requires Recorded(m, r)
    ensures Reachable(m)
  {
  }

  lemma CellIsCounted(m: State, r: seq<Label>)
    requires Recorded(m, r) && m.sh.cell.Some?
    ensures m.sh.cell.value < |m.closures| && m.closures[m.sh.cell.value].strong >= 1
  {
    assert Reachable(m);
    NeverUsedAfterFree(m, 0, m.sh.cell.value);
  }

  lemma CellDuringRegister(m: State, r: seq<Label>, p: nat)
    requires Recorded(m, r) && p < |m.acts| && m.acts[p].Setting? && m.acts[p].pc.InRegister?
    ensures m.sh.cell == Some(m.acts[p].c)
  {
    assert LockAt(m.locks, m.acts[p], p, Registration);
  }

  lemma InsideLocks(m: State, i: nat, c: nat, p: Option<nat>)
    requires m.locks == map[] && i < |m.acts| && c < |m.closures|
    ensures c < |Leaked(m, i, c).closures|
    ensures Slot !in Registered(Replaced(Leaked(m, i, c), i, c), i, c, p).locks
  {
  }

  lemma PublishGrows(m: State, m1: State, m2: State, t: State, c: nat)
    requires Grown(m, m1, None) && Logged(m, m1, SetOp(c)) && m1.sh.leaked && m1.sh.ctxKnown
    requires Grown(m1, m2, None) && Grown(m2, t, None)
    ensures Grown(m, t, None) && Logged(m, t, SetOp(c)) && t.sh.leaked && t.sh.ctxKnown
  {
    GrownTransitive(m1, m2, t, None);
    LoggedStays(m, m1, t, SetOp(c));
    GrownTransitive(m, m1, t, None);
  }

  lemma StartedGrows(m: State)
    requires m.sh.owner.Alive?
    ensures var t := Apply(m, StartSet);
            && Grown(m, t, None) && |t.acts| == |m.acts| + 1 && |t.closures| == |m.closures| + 1
            && t.acts[|m.acts|] == Setting(AskReg, |m.closures|, None, None)
  {
  }

  lemma SetGrows(m: State, m0: State, m1: State, t: State, c: nat)
    requires Grown(m, m0, None) && Grown(m0, m1, None) && Logged(m0, m1, SetOp(c)) && m1.sh.leaked && m1.sh.ctxKnown
    requires Grown(m1, t, None)
    ensures Grown(m, t, None) && Logged(m, t, SetOp(c)) && t.sh.leaked && t.sh.ctxKnown
  {
    LoggedSince(m, m0, m1, SetOp(c));
    LoggedStays(m, m1, t, SetOp(c));
    GrownTransitive(m, m0, m1, None);
    GrownTransitive(m, m1, t, None);
  }

  lemma SetIsAsAlone(m: State, c: nat, child: Option<nat>, acts: seq<Act>)
    requires m.sh.owner.Alive? && m.locks == map[] && c == |m.closures|
    requires m.sh.cell.Some? ==> m.sh.cell.value < c
    requires var i := |m.acts|;
             var started := Apply(m, StartSet);
             var inside := Registered(Replaced(Leaked(started, i, c), i, c), i, c, m.sh.cell);
             i < |acts| && OnlyDispatchesSince(inside, inside.(acts := acts), i)
    ensures var i := |m.acts|;
            var inside := Registered(Replaced(Leaked(Apply(m, StartSet), i, c), i, c), i, c, m.sh.cell);
            SetAsAlone(m, ReleasedPrevious(Left(inside.(acts := acts), i, c, m.sh.cell, child), i, m.sh.cell))
  {
    SetAlone(m, |m.acts|, c, child, acts);
  }

  /** What a set does to the protocol when nobody interferes. */
  predicate SetAsAlone(m: State, t: State) {
    var c := |m.closures|;
    && t.locks == map[] && t.closures == Dropped(m.closures, m.sh.cell) + [Closure(1, 0)]
    && t.sh == m.sh.(leaked := true, slotRefs := m.sh.slotRefs + Bit(!m.sh.leaked), cell := Some(c),
                     registered := true, ctxKnown := true, log := m.sh.log + [SetOp(c)])
    && |m.acts| < |t.acts| && t.acts[..|m.acts|] == m.acts
    && forall k :: |m.acts| <= k < |t.acts| ==> t.acts[k].Done?
  }

  lemma OwnerGone(m: State, r: seq<Label>)
    requires Recorded(m, r)
    ensures m.sh.owner.Gone? ==> m.sh.destroyed && m.sh.cell.None? && !m.sh.registered
  {
  }

  lemma TdStartedGrows(m: State, final: bool)
    requires Enabled(m, StartTeardown(final))
    ensures var t := Apply(m, StartTeardown(final));
            && Grown(m, t, None) && |t.acts| == |m.acts| + 1 && t.locks == m.locks && t.sh.cell == m.sh.cell
            && t.acts[|m.acts|] == Tearing(TdAskReg, final, None)
  {
  }

  lemma TdGrows(m: State, m0: State, m1: State, t: State)
    requires Grown(m, m0, None) && Grown(m0, m1, None) && Logged(m0, m1, TeardownOp) && Grown(m1, t, None)
    ensures Grown(m, t, None) && Logged(m, t, TeardownOp)
  {
    LoggedSince(m, m0, m1, TeardownOp);
    LoggedStays(m, m1, t, TeardownOp);
    GrownTransitive(m, m0, m1, None);
    GrownTransitive(m, m1, t, None);
  }

  /** What a teardown does to the protocol when nobody interferes. */
  predicate TornDownAsAlone(m: State, t: State, final: bool) {
    && t.locks == map[] && t.closures == Dropped(m.closures, m.sh.cell) && t.acts == m.acts + [Done]
    && t.sh == m.sh.(registered := false, cell := None, destroyed := m.sh.destroyed || final,
                     owner := if final then Gone else m.sh.owner,
                     slotRefs := m.sh.slotRefs - Bit(final), log := m.sh.log + [TeardownOp])
  }

  lemma TeardownIsAsAlone(m: State, final: bool)
    requires m.locks == map[] && Enabled(m, StartTeardown(final))
    ensures var i := |m.acts|;
            var started := Apply(m, StartTeardown(final));
            var taken := TakenOut(Unregistered(TdLocked(started, i, final), i, final), i, final);
            && Dispatch !in taken.locks
            && TornDownAsAlone(m, TdReleased(taken, i, final, m.sh.cell), final)
  {
    TeardownAlone(m, final);
  }

  /** Activity i is inside its registration call, and no synchronous dispatch is running. */
  predicate InRegistration(m: State, i: nat, c: nat, previous: Option<nat>)
    requires i < |m.acts|
  {
    && m.acts[i].Setting? && m.acts[i] == Setting(InRegister, c, previous, m.acts[i].child)
    && ChildDone(m, m.acts[i].child)
  }

  /** Between m and t only activity i, and dispatches that are over, have moved. */
  predicate OnlyDispatchesSince(m: State, t: State, i: nat) {
    && |m.acts| <= |t.acts|
    && (forall k :: 0 <= k < |m.acts| && k != i ==> t.acts[k] == m.acts[k])
    && (forall k :: |m.acts| <= k < |t.acts| ==> t.acts[k].Done?)
  }

  /** In state s some dispatch is running the code of closure c. */
  predicate Calling(s: State, c: nat) {
    exists j :: 0 <= j < |s.acts| && s.acts[j].Dispatching? && s.acts[j].dpc.Invoking? && s.acts[j].got == Some(c)
  }

  class CallbackSlot {
    var leaked: bool
    var slotRefs: int
    var owner: Owner
    var cell: Option<nat>
    var registered: bool
    var ctxKnown: bool
    var destroyed: bool
    var closures: seq<Closure>
    /** The protocol: who holds which lock, and where every thread is. */
    var model: State
    ghost var run: seq<Label>
    /** What other threads try to do, the n-th time that they can. */
    const schedule: nat -> seq<Label>
    var clock: nat

    /** The fields are those of the protocol state m. */
    ghost predicate Matches(m: State)
      reads this
    {
      && m.sh == Shared(leaked, slotRefs, owner, cell, registered, ctxKnown, destroyed, m.sh.log)
      && m.closures == closures
    }

    /** The object's state is a reachable state of the protocol. */
    ghost predicate Valid()
      reads this
    {
      Matches(model) && Recorded(model, run)
    }

    /** Nobody else does anything. */
    ghost predicate Undisturbed() {
      forall n :: schedule(n) == []
    }

    constructor (schedule: nat -> seq<Label>)
      ensures Valid() && model == Init() && this.schedule == schedule
      ensures cell == None && !registered && !leaked && slotRefs == 1 && owner == Alive && closures == []
    {
      leaked, slotRefs, owner, cell, registered, ctxKnown, destroyed := false, 1, Alive, None, false, false, false;
      closures, model, run := [], Init(), [];
      this.schedule, clock := schedule, 0;
      new;
      InitInv();
    }

    /** The protocol moves on to m, which must agree with the fields as they are now. */
    method Follow(m: State, ghost r: seq<Label>)
      requires Recorded(m, r) && Matches(m)
      modifies `model, `run
      ensures Valid() && model == m
    {
      model, run := m, r;
    }

    // ----- other threads -----

    /** One step of the protocol that is not an update of this thread. */
    method Take(l: Label)
      requires Valid() && Enabled(model, l)
      modifies this
      ensures Valid() && model == Apply(old(model), l)
    {
      hide Recorded, Apply, Enabled;
      ghost var r := Record(model, run, l);
      var m := Apply(model, l);
      leaked, slotRefs, owner, cell := m.sh.leaked, m.sh.slotRefs, m.sh.owner, m.sh.cell;
      registered, ctxKnown, destroyed := m.sh.registered, m.sh.ctxKnown, m.sh.destroyed;
      closures := m.closures;
      Follow(m, r);
    }

    /** Other threads overtake activity i, as their schedule has it. */
    method Interfere(i: nat, ghost p: Option<nat>)
      requires Valid() && Us(model, i, p)
      modifies this
      ensures Valid() && Us(model, i, p) && Overtaken(old(model), model, i, p)
      ensures Undisturbed() ==> model == old(model)
    {
      hide Recorded;
      var ls := schedule(clock);
      clock := clock + 1;
      for n := 0 to |ls|
        invariant Valid() && Us(model, i, p) && Overtaken(old(model), model, i, p)
        invariant Undisturbed() ==> model == old(model)
      {
        if ByOthers(ls[n], i) && Enabled(model, ls[n]) {
          ghost var m := model;
          Other(ls[n], i, p);
          OvertakenTransitive(old(model), m, model, i, p);
        }
      }
    }

    method Other(l: Label, i: nat, ghost p: Option<nat>)
      requires Valid() && Us(model, i, p) && ByOthers(l, i) && Enabled(model, l)
      modifies this
      ensures Valid() && Us(model, i, p) && Overtaken(old(model), model, i, p)
      ensures model == Apply(old(model), l)
    {
      hide Recorded;
      OthersOvertake(model, l, i, p);
      Take(l);
    }

    /** Wait until activity i can move; the others move until then. */
    method Await(i: nat, ghost p: Option<nat>)
      requires Valid() && Us(model, i, p)
      modifies this
      ensures Valid() && Us(model, i, p) && Overtaken(old(model), model, i, p)
      ensures CanAdvance(model, model.acts[i])
      ensures Undisturbed() && CanAdvance(old(model), old(model).acts[i]) ==> model == old(model)
    {
      hide Recorded, CanAdvance;
      Interfere(i, p);
      while !CanAdvance(model, model.acts[i])
        invariant Valid() && Us(model, i, p) && Overtaken(old(model), model, i, p)
        invariant Undisturbed() && CanAdvance(old(model), old(model).acts[i]) ==> model == old(model)
        decreases Sum(model.acts, Remaining)
      {
        ghost var m := model;
        ghost var somebody := SomebodyElse(model, run, i, p);
        var k :| 0 <= k < |model.acts| && k != i && CanAdvance(model, model.acts[k]);
        OthersFinish(model, run, k);
        Other(Advance(k), i, p);
        OvertakenTransitive(old(model), m, model, i, p);
      }
    }

    /** `drop` of an optional handle: the last one runs the closure's destructor. */
    method DropHandle(p: Option<nat>)
      requires p.Some? ==> p.value < |closures|
      modifies `closures
      ensures closures == Dropped(old(closures), p)
    {
      if p.Some? {
        var k := closures[p.value];
        closures := closures[p.value := Closure(k.strong - 1, k.drops)];
        if closures[p.value].strong == 0 {
          closures := closures[p.value := Closure(0, k.drops + 1)];
        }
      }
    }

    // ----- trampoline -----

    /** Clone the stored closure under the slot lock. */
    method CloneStored(i: nat, mode: Mode) returns (called: Option<nat>)
      requires Valid() && i < |model.acts| && model.acts[i] == Dispatching(Enter, mode, None)
      requires CanAdvance(model, model.acts[i])
      requires cell.Some? ==> cell.value < |closures|
      modifies `closures, `model, `run
      ensures Valid() && called == cell
      ensures model == Cloned(old(model), i, mode)
    {
      hide Recorded, CanAdvance;
      ghost var r := ClonePass(model, run, i, mode);
      called := cell;
      if called.Some? {
        var k := closures[called.value];
        closures := closures[called.value := k.(strong := k.strong + 1)];
      }
      Follow(Cloned(model, i, mode), r);
    }

    /** Run the user code, while the others go on, and drop the clone. */
    method InvokeAndDrop(i: nat, ghost p: Option<nat>, mode: Mode, c: nat) returns (ghost ran: State)
      requires Valid() && Us(model, i, p) && model.acts[i] == Dispatching(Call, mode, Some(c)) && c < |closures|
      modifies this
      ensures Valid() && Grown(old(model), model, p) && i < |model.acts|
      ensures model.acts[i] == Dispatching(Return, mode, Some(c))
      ensures Reachable(ran) && Grown(old(model), ran, p) && Grown(ran, model, p)
      ensures i < |ran.acts| && ran.acts[i] == Dispatching(Invoking, mode, Some(c))
      ensures Undisturbed() ==> model == ReleasedClone(Invoked(old(model), i, mode, c), i, mode, c)
    {
      hide Recorded;
      ghost var r := InvokePass(model, run, i, mode, c);
      Follow(Invoked(model, i, mode, c), r);
      ran := model;
      IsReachable(model, run);
      Interfere(i, p);
      r := DropClonePass(model, run, i, mode, c);
      DropHandle(Some(c));
      Follow(ReleasedClone(model, i, mode, c), r);
    }

    /** One dispatch, from its slot lock to its return.  It calls what is in the cell when it
        gets the lock, in state `at`, which is the closure of the set inside whose registration
        call it runs; in state `ran` it is running that closure. */
    method RunDispatch(i: nat, ghost p: Option<nat>, mode: Mode)
      returns (called: Option<nat>, ghost at: State, ghost ran: State)
      requires Valid() && Us(model, i, p) && model.acts[i] == Dispatching(Enter, mode, None)
      modifies this
      ensures Valid() && Grown(old(model), model, p) && i < |model.acts|
      ensures Reachable(at) && Grown(old(model), at, p) && Grown(at, model, p) && called == at.sh.cell
      ensures called.Some? ==> Reachable(ran) && Grown(at, ran, p) && Grown(ran, model, p)
      ensures called.Some? ==> i < |ran.acts| && ran.acts[i] == Dispatching(Invoking, mode, called)
      ensures model.acts[i] == Dispatching(Return, mode, called)
      ensures p.Some? ==> called == Some(old(model).acts[p.value].c)
      ensures Undisturbed() && Slot !in old(model).locks ==>
        called == old(cell) && model == old(model).(acts := old(model).acts[i := Dispatching(Return, mode, called)])
    {
      hide Recorded, Dropped, ReleasedClone, Invoked, Grown;
      ghost var m := model;
      called, at := AwaitAndClone(i, p, mode);
      ran := model;
      if called.Some? {
        ghost var cloned := model;
        ran := InvokeAndDrop(i, p, mode, called.value);
        GrownTransitive(at, cloned, ran, p);
        GrownTransitive(at, cloned, model, p);
      }
      GrownTransitive(m, at, model, p);
      if Undisturbed() && Slot !in m.locks { DispatchAlone(at, i, mode); }
    }

    /** Wait for the slot lock, then clone the stored closure. */
    method AwaitAndClone(i: nat, ghost p: Option<nat>, mode: Mode) returns (called: Option<nat>, ghost at: State)
      requires Valid() && Us(model, i, p) && model.acts[i] == Dispatching(Enter, mode, None)
      modifies this
      ensures Valid() && Us(model, i, p) && Reachable(at) && Grown(old(model), at, p) && Grown(at, model, p)
      ensures called == at.sh.cell && (called.Some? ==> called.value < |at.closures| == |model.closures|)
      ensures called.Some? ==> at.closures[called.value].strong >= 1
      ensures model.acts[i] == Dispatching(if called.Some? then Call else Return, mode, called)
      ensures p.Some? ==> called == Some(old(model).acts[p.value].c)
      ensures i < |at.acts| && at.acts[i].Dispatching? && model == Cloned(at, i, mode)
      ensures Undisturbed() && Slot !in old(model).locks ==> at == old(model)
    {
      hide Recorded;
      Await(i, p);
      at := model;
      IsReachable(model, run);
      if cell.Some? { CellIsCounted(model, run); }
      if p.Some? { CellDuringRegister(model, run, p.value); }
      ClonedGrows(at, i, p, mode);
      hide Cloned, Grown, Us;
      called := CloneStored(i, mode);
    }

    /** The end of a dispatch. */
    method Finish(i: nat, mode: Mode, called: Option<nat>)
      requires Valid() && i < |model.acts| && model.acts[i] == Dispatching(Return, mode, called)
      modifies this
      ensures Valid() && model.sh == old(model.sh) && model.closures == old(model.closures)
      ensures model.acts == old(model.acts)[i := Done]
      ensures model.locks == if mode.Locked? then old(model.locks) - {Dispatch} else old(model.locks)
    {
      hide Recorded;
      Take(Advance(i));
    }

    /** A dispatch by libmpv outside any registration call, with or without a lock of its own: it
        calls, in state `ran`, what is in the cell at one moment of the call, in state `at`, and
        nothing if the cell is empty. */
    method Trampoline(locked: bool) returns (called: Option<nat>, ghost at: State, ghost ran: State)
      requires Valid() && ctxKnown
      modifies this
      ensures Valid() && Grown(old(model), model, None) && slotRefs >= 1
      ensures Reachable(at) && Grown(old(model), at, None) && Grown(at, model, None) && called == at.sh.cell
      ensures called.Some? ==> Reachable(ran) && Grown(at, ran, None) && Grown(ran, model, None)
      ensures called.Some? ==> |old(model.acts)| < |ran.acts|
      ensures called.Some? ==>
        ran.acts[|old(model.acts)|] == Dispatching(Invoking, if locked then Locked else Unlocked, called)
      ensures |old(model.acts)| < |model.acts| && model.acts[|old(model.acts)|].Done?
      ensures Undisturbed() && old(model.locks) == map[] ==>
        called == old(cell) && closures == old(closures) && model.sh == old(model.sh) && model.locks == map[]
    {
      hide Recorded;
      ghost var m := model;
      var i := |model.acts|;
      var mode := EnterDispatch(i, locked);
      ghost var entered := model;
      called, at, ran := RunDispatch(i, None, mode);
      GrownTransitive(m, entered, model, None);
      GrownTransitive(m, entered, at, None);
      Finish(i, mode, called);
      SlotAlive();
    }

    /** libmpv starts a dispatch; it takes its own lock first, if it uses one. */
    method EnterDispatch(i: nat, locked: bool) returns (mode: Mode)
      requires Valid() && ctxKnown && i == |model.acts|
      modifies this
      ensures Valid() && Grown(old(model), model, None)
      ensures i < |model.acts| && model.acts[i] == Dispatching(Enter, mode, None)
      ensures mode == if locked then Locked else Unlocked
      ensures Undisturbed() && old(model.locks) == map[] ==>
        && model == old(model).(locks := model.locks, acts := old(model.acts) + [Dispatching(Enter, mode, None)])
        && model.locks == if locked then map[Dispatch := i] else map[]
    {
      hide Recorded;
      ghost var m := model;
      mode := if locked then Locked else Unlocked;
      Take(StartDispatch(locked));
      ghost var started := model;
      if locked {
        Await(i, None);
        GrownTransitive(m, started, model, None);
        Take(Advance(i));
      }
    }

    lemma SlotAlive()
      requires Valid() && ctxKnown
      ensures slotRefs >= 1
    {
      assert Reachable(model);
      SlotOutlivesDispatches(model);
    }

    // ----- set -----

    /** Leak one slot reference, once per slot. */
    method LeakOnce(i: nat, c: nat)
      requires Valid() && i < |model.acts| && model.acts[i] == Setting(AskReg, c, None, None)
      requires CanAdvance(model, model.acts[i])
      modifies `slotRefs, `leaked, `model, `run
      ensures Valid() && model == Leaked(old(model), i, c)
    {
      hide Recorded, CanAdvance;
      ghost var r := LeakPass(model, run, i, c);
      if !leaked {
        slotRefs := slotRefs + 1;
        leaked := true;
      }
      Follow(Leaked(model, i, c), r);
    }

    method StoreNew(i: nat, c: nat) returns (previous: Option<nat>)
      requires Valid() && i < |model.acts| && model.acts[i] == Setting(AskSlot, c, None, None)
      requires CanAdvance(model, model.acts[i]) && c < |closures|
      modifies `closures, `cell, `model, `run
      ensures Valid() && model == Replaced(old(model), i, c) && previous == old(cell)
    {
      hide Recorded, CanAdvance;
      ghost var r := ReplacePass(model, run, i, c);
      previous := cell;
      closures := closures[c := Closure(1, closures[c].drops)];
      cell := Some(c);
      Follow(Replaced(model, i, c), r);
    }

    method Register(i: nat, c: nat, previous: Option<nat>)
      requires Valid() && i < |model.acts| && model.acts[i] == Setting(AskDispatch, c, previous, None)
      requires CanAdvance(model, model.acts[i])
      modifies `registered, `ctxKnown, `model, `run
      ensures Valid() && model == Registered(old(model), i, c, previous)
    {
      hide Recorded, CanAdvance;
      ghost var r := RegisterPass(model, run, i, c, previous);
      registered, ctxKnown := true, true;
      Follow(Registered(model, i, c, previous), r);
    }

    /** Wait for the registration lock, then leak. */
    method AwaitAndLeak(i: nat, c: nat)
      requires Valid() && i < |model.acts| && model.acts[i] == Setting(AskReg, c, None, None)
      modifies this
      ensures Valid() && Grown(old(model), model, None) && Logged(old(model), model, SetOp(c)) && model.sh.leaked
      ensures i < |model.acts| && model.acts[i] == Setting(AskSlot, c, None, None)
      ensures Undisturbed() && Registration !in old(model).locks ==> model == Leaked(old(model), i, c)
    {
      hide Recorded;
      Await(i, None);
      hide Leaked, Grown, Logged;
      ghost var at := model;
      LeakedGrows(at, i, c);
      LeakOnce(i, c);
      GrownTransitive(old(model), at, model, None);
      LoggedSince(old(model), at, model, SetOp(c));
    }

    /** Wait for the slot lock, then put the new closure into the cell. */
    method AwaitAndStore(i: nat, c: nat) returns (previous: Option<nat>)
      requires Valid() && i < |model.acts| && model.acts[i] == Setting(AskSlot, c, None, None) && c < |closures|
      modifies this
      ensures Valid() && Grown(old(model), model, None)
      ensures i < |model.acts| && model.acts[i] == Setting(AskDispatch, c, previous, None)
      ensures Undisturbed() && Slot !in old(model).locks ==>
        previous == old(cell) && model == Replaced(old(model), i, c)
    {
      hide Recorded;
      Await(i, None);
      ghost var at := model;
      assert c < |closures|;
      hide Grown;
      ReplacedGrows(at, i, c);
      previous := StoreNew(i, c);
      GrownTransitive(old(model), at, model, None);
    }

    /** Wait for libmpv's lock, then register. */
    method AwaitAndRegister(i: nat, c: nat, previous: Option<nat>)
      requires Valid() && i < |model.acts| && model.acts[i] == Setting(AskDispatch, c, previous, None)
      modifies this
      ensures Valid() && Grown(old(model), model, None) && registered && ctxKnown
      ensures i < |model.acts| && model.acts[i] == Setting(InRegister, c, previous, None)
      ensures Undisturbed() && Dispatch !in old(model).locks ==> model == Registered(old(model), i, c, previous)
    {
      hide Recorded;
      Await(i, None);
      hide Grown;
      ghost var at := model;
      RegisteredGrows(at, i, c, previous);
      Register(i, c, previous);
      GrownTransitive(old(model), at, model, None);
    }

    /** `set` up to and including libmpv's storing of the callback: leak, store, register. */
    method StoreAndRegister(i: nat, c: nat) returns (previous: Option<nat>)
      requires Valid() && i < |model.acts| && model.acts[i] == Setting(AskReg, c, None, None) && c < |closures|
      modifies this
      ensures Valid() && Grown(old(model), model, None) && Logged(old(model), model, SetOp(c))
      ensures i < |model.acts| && model.acts[i] == Setting(InRegister, c, previous, None)
      ensures cell == Some(c) && leaked && registered && ctxKnown
      ensures Undisturbed() && old(model.locks) == map[] ==>
        && previous == old(cell) && c < |Leaked(old(model), i, c).closures|
        && model == Registered(Replaced(Leaked(old(model), i, c), i, c), i, c, previous)
    {
      hide Recorded, Logged;
      ghost var m := model;
      AwaitAndLeak(i, c);
      ghost var m1 := model;
      assert c < |closures|;
      previous := AwaitAndStore(i, c);
      ghost var m2 := model;
      AwaitAndRegister(i, c, previous);
      CellDuringRegister(model, run, i);
      GrownTransitive(m1, m2, model, None);
      GrownTransitive(m, m1, model, None);
      LoggedStays(m, m1, model, SetOp(c));
    }

    /** The dispatches libmpv makes synchronously inside the registration call of activity i:
        each of them calls the new closure, the k-th in state ran[k]. */
    method SyncDispatches(dispatches: nat, i: nat, c: nat, ghost previous: Option<nat>)
      returns (called: seq<nat>, ghost ran: seq<State>)
      requires Valid() && i < |model.acts| && model.acts[i] == Setting(InRegister, c, previous, None)
      modifies this
      ensures Valid() && Grown(old(model), model, None)
      ensures |called| == dispatches && forall k :: 0 <= k < dispatches ==> called[k] == c
      ensures |ran| == dispatches && forall k :: 0 <= k < dispatches ==> Reachable(ran[k]) && Calling(ran[k], c)
      ensures i < |model.acts| && InRegistration(model, i, c, previous)
      ensures Undisturbed() && Slot !in old(model).locks ==> model == old(model).(acts := model.acts)
      ensures Undisturbed() && Slot !in old(model).locks ==> OnlyDispatchesSince(old(model), model, i)
    {
      hide Recorded, Reachable, Calling;
      called, ran := [], [];
      for n := 0 to dispatches
        invariant Valid() && Grown(old(model), model, None)
        invariant |called| == n && forall k :: 0 <= k < n ==> called[k] == c
        invariant |ran| == n && forall k :: 0 <= k < n ==> Reachable(ran[k]) && Calling(ran[k], c)
        invariant i < |model.acts| && InRegistration(model, i, c, previous)
        invariant Undisturbed() && Slot !in old(model).locks ==> model == old(model).(acts := model.acts)
        invariant Undisturbed() && Slot !in old(model).locks ==> OnlyDispatchesSince(old(model), model, i)
      {
        ghost var m := model;
        var one;
        ghost var state;
        one, state := SyncDispatch(i, c, previous);
        called, ran := called + [one], ran + [state];
        GrownTransitive(old(model), m, model, None);
      }
    }

    method SyncDispatch(i: nat, c: nat, ghost previous: Option<nat>) returns (called: nat, ghost ran: State)
      requires Valid() && i < |model.acts| && InRegistration(model, i, c, previous)
      modifies this
      ensures Valid() && Grown(old(model), model, None) && called == c
      ensures Reachable(ran) && Calling(ran, c)
      ensures i < |model.acts| && InRegistration(model, i, c, previous)
      ensures Undisturbed() && Slot !in old(model).locks ==> model == old(model).(acts := model.acts)
      ensures Undisturbed() && Slot !in old(model).locks ==> OnlyDispatchesSince(old(model), model, i)
    {
      hide Recorded;
      var j := |model.acts|;
      Take(StartNested(i));
      ghost var started := model;
      var got;
      ghost var at;
      got, at, ran := RunDispatch(j, Some(i), Nested);
      called := got.value;
      Finish(j, Nested, got);
    }

    /** Leave libmpv's registration call and the registration lock. */
    method Leave(i: nat, c: nat, previous: Option<nat>)
      requires Valid() && i < |model.acts| && InRegistration(model, i, c, previous)
      modifies `model, `run
      ensures Valid() && i < |old(model.acts)| && model == Left(old(model), i, c, previous, old(model.acts[i].child))
    {
      hide Recorded;
      ghost var r := LeavePass(model, run, i, c, previous, model.acts[i].child);
      Follow(Left(model, i, c, previous, model.acts[i].child), r);
    }

    /** Release the replaced closure, under no lock; the others may have gone on meanwhile. */
    method ReleasePrevious(i: nat, c: nat, previous: Option<nat>, ghost child: Option<nat>)
      requires Valid() && i < |model.acts| && model.acts[i] == Setting(DropPrevious, c, previous, child)
      modifies this
      ensures Valid() && Grown(old(model), model, None) && i < |model.acts| && model.acts[i] == Done
      ensures Undisturbed() ==> i < |old(model.acts)| && model == ReleasedPrevious(old(model), i, previous)
    {
      hide Recorded;
      Interfere(i, None);
      ghost var at := model;
      if previous.Some? { HeldIsInTable(model, run, i, previous.value); }
      hide Grown;
      ReleasedPreviousGrows(at, i, previous);
      ghost var r := DropPreviousPass(model, run, i, c, previous, child);
      DropHandle(previous);
      Follow(ReleasedPrevious(model, i, previous), r);
      GrownTransitive(old(model), at, model, None);
    }

    /** `set` up to the end of its locked block. */
    method Publish(i: nat, c: nat, dispatches: nat)
      returns (previous: Option<nat>, called: seq<nat>, ghost child: Option<nat>, ghost acts: seq<Act>,
               ghost ran: seq<State>)
      requires Valid() && i < |model.acts| && model.acts[i] == Setting(AskReg, c, None, None) && c < |closures|
      modifies this
      ensures Valid() && Grown(old(model), model, None) && Logged(old(model), model, SetOp(c)) && leaked && ctxKnown
      ensures i < |model.acts| && model.acts[i] == Setting(DropPrevious, c, previous, child)
      ensures |called| == dispatches && forall k :: 0 <= k < dispatches ==> called[k] == c
      ensures |ran| == dispatches && forall k :: 0 <= k < dispatches ==> Reachable(ran[k]) && Calling(ran[k], c)
      ensures Undisturbed() && old(model.locks) == map[] ==>
        && previous == old(cell) && c < |Leaked(old(model), i, c).closures|
        && var inside := Registered(Replaced(Leaked(old(model), i, c), i, c), i, c, previous);
           && OnlyDispatchesSince(inside, inside.(acts := acts), i) && i < |acts|
           && model == Left(inside.(acts := acts), i, c, previous, child)
    {
      hide Recorded, Logged, Grown, Leaked, Replaced, Registered, Left, Reachable, Calling;
      ghost var m := model;
      previous := StoreAndRegister(i, c);
      ghost var m1 := model;
      called, ran := SyncDispatches(dispatches, i, c, previous);
      if Undisturbed() && m.locks == map[] { InsideLocks(m, i, c, previous); }
      ghost var m2 := model;
      acts, child := model.acts, model.acts[i].child;
      Leave(i, c, previous);
      LeftGrows(m2, i, c, previous, child);
      PublishGrows(m, m1, m2, model, c);
    }

    /**
     * Store the closure, register with libmpv (which dispatches `dispatches` times before
     * the registration call returns), then release the replaced closure.  Whatever the
     * others do, the call returns with its operation in the log, every synchronous dispatch
     * called the new closure, and the slot reference has been leaked.  If nobody interferes,
     * the outcome is exact.
     */
    method Set(dispatches: nat) returns (c: nat, called: seq<nat>, ghost ran: seq<State>)
      requires Valid() && owner.Alive?
      modifies this
      ensures Valid() && Grown(old(model), model, None) && Logged(old(model), model, SetOp(c))
      ensures |old(model.acts)| < |model.acts| && model.acts[|old(model.acts)|].Done?
      ensures c == |old(closures)| && leaked && ctxKnown
      ensures |called| == dispatches && forall k :: 0 <= k < dispatches ==> called[k] == c
      ensures |ran| == dispatches && forall k :: 0 <= k < dispatches ==> Reachable(ran[k]) && Calling(ran[k], c)
      ensures Undisturbed() && old(model.locks) == map[] ==> SetAsAlone(old(model), model)
    {
      hide Recorded;
      ghost var m := model;
      if cell.Some? { CellIsCounted(model, run); }
      var i := |model.acts|;
      c := |closures|;
      StartedGrows(m);
      Take(StartSet);
      ghost var m0 := model;
      hide Logged, Grown, Leaked, Replaced, Registered, Left, ReleasedPrevious, SetAsAlone, Apply, Reachable, Calling;
      var previous;
      ghost var child, acts;
      previous, called, child, acts, ran := Publish(i, c, dispatches);
      ghost var m1 := model;
      ReleasePrevious(i, c, previous, child);
      SetGrows(m, m0, m1, model, c);
      if Undisturbed() && m.locks == map[] {
        SetIsAsAlone(m, c, child, acts);
      }
    }

    // ----- teardown -----

    method TakeRegistration(i: nat, final: bool)
      requires Valid() && i < |model.acts| && model.acts[i] == Tearing(TdAskReg, final, None)
      modifies this
      ensures Valid() && Grown(old(model), model, None) && Logged(old(model), model, TeardownOp)
      ensures i < |model.acts| && model.acts[i] == Tearing(TdAskDispatch, final, None)
      ensures Undisturbed() && Registration !in old(model).locks ==> model == TdLocked(old(model), i, final)
    {
      hide Recorded;
      Await(i, None);
      hide Grown, Logged;
      ghost var at := model;
      TdLockedGrows(at, i, final);
      Take(Advance(i));
      assert model == TdLocked(at, i, final);
      GrownTransitive(old(model), at, model, None);
      LoggedSince(old(model), at, model, TeardownOp);
    }

    method Unregister(i: nat, final: bool)
      requires Valid() && i < |model.acts| && model.acts[i] == Tearing(TdAskDispatch, final, None)
      modifies this
      ensures Valid() && Grown(old(model), model, None) && !registered
      ensures i < |model.acts| && model.acts[i] == Tearing(TdAskSlot, final, None)
      ensures Undisturbed() && Dispatch !in old(model).locks ==> model == Unregistered(old(model), i, final)
    {
      hide Recorded;
      Await(i, None);
      hide Grown;
      ghost var at := model;
      UnregisteredGrows(at, i, final);
      ghost var r := UnregisterPass(model, run, i, final);
      registered := false;
      Follow(Unregistered(model, i, final), r);
      GrownTransitive(old(model), at, model, None);
    }

    method TakeOut(i: nat, final: bool) returns (callback: Option<nat>)
      requires Valid() && i < |model.acts| && model.acts[i] == Tearing(TdAskSlot, final, None)
      modifies this
      ensures Valid() && Grown(old(model), model, None) && cell == None
      ensures i < |model.acts| && model.acts[i] == Tearing(TdDestroy, final, callback)
      ensures Undisturbed() && Slot !in old(model).locks ==>
        callback == old(cell) && model == TakenOut(old(model), i, final)
    {
      hide Recorded;
      Await(i, None);
      hide Grown;
      ghost var at := model;
      TakenOutGrows(at, i, final);
      ghost var r := TakePass(model, run, i, final);
      callback := cell;
      cell := None;
      Follow(TakenOut(model, i, final), r);
      GrownTransitive(old(model), at, model, None);
    }

    /** `teardown` up to the end of its block: unregister, take, release both locks. */
    method UnregisterAndTake(i: nat, final: bool) returns (callback: Option<nat>)
      requires Valid() && i < |model.acts| && model.acts[i] == Tearing(TdAskReg, final, None)
      modifies this
      ensures Valid() && Grown(old(model), model, None) && Logged(old(model), model, TeardownOp) && cell == None
      ensures i < |model.acts| && model.acts[i] == Tearing(TdDestroy, final, callback)
      ensures Undisturbed() && old(model.locks) == map[] ==>
        && callback == old(cell)
        && model == TakenOut(Unregistered(TdLocked(old(model), i, final), i, final), i, final)
    {
      hide Recorded, Logged;
      ghost var m := model;
      TakeRegistration(i, final);
      ghost var m1 := model;
      Unregister(i, final);
      ghost var m2 := model;
      callback := TakeOut(i, final);
      GrownTransitive(m1, m2, model, None);
      GrownTransitive(m, m1, model, None);
      LoggedStays(m, m1, model, TeardownOp);
    }

    /** Run the owner's destroy call; in the owner's Drop it waits for libmpv's dispatches. */
    method Destroy(i: nat, final: bool, callback: Option<nat>)
      requires Valid() && i < |model.acts| && model.acts[i] == Tearing(TdDestroy, final, callback)
      modifies this
      ensures Valid() && Grown(old(model), model, None)
      ensures i < |model.acts| && model.acts[i] == Tearing(TdDropTaken, final, callback)
      ensures Undisturbed() && Dispatch !in old(model).locks ==> model == Destroyed(old(model), i, final, callback)
    {
      hide Recorded;
      Await(i, None);
      hide Grown;
      ghost var at := model;
      TdReleasedGrows(at, i, final, callback);
      DestroyNow(i, final, callback);
      GrownTransitive(old(model), at, model, None);
    }

    method DestroyNow(i: nat, final: bool, callback: Option<nat>)
      requires Valid() && i < |model.acts| && model.acts[i] == Tearing(TdDestroy, final, callback)
      requires CanAdvance(model, model.acts[i])
      modifies `destroyed, `model, `run
      ensures Valid() && model == Destroyed(old(model), i, final, callback)
    {
      hide Recorded, CanAdvance;
      ghost var r := DestroyPass(model, run, i, final, callback);
      destroyed := destroyed || final;
      Follow(Destroyed(model, i, final, callback), r);
    }

    /** Release the removed closure, under no lock, and then, in the owner's Drop, the slot. */
    method ReleaseCallback(i: nat, final: bool, callback: Option<nat>)
      requires Valid() && i < |model.acts| && model.acts[i] == Tearing(TdDropTaken, final, callback)
      modifies this
      ensures Valid() && Grown(old(model), model, None)
      ensures i < |model.acts| && model.acts[i] == Done && (final ==> owner == Gone)
      ensures Undisturbed() ==>
        i < |old(model.acts)| && model == TdEnded(ReleasedTaken(old(model), i, final, callback), i, final)
    {
      hide Recorded;
      Interfere(i, None);
      ghost var at := model;
      if callback.Some? { HeldIsInTable(model, run, i, callback.value); }
      hide Grown;
      TdReleasedGrows(at, i, final, callback);
      DropTaken(i, final, callback);
      GiveUpSlot(i, final, callback);
      GrownTransitive(old(model), at, model, None);
    }

    method DropTaken(i: nat, final: bool, callback: Option<nat>)
      requires Valid() && i < |model.acts| && model.acts[i] == Tearing(TdDropTaken, final, callback)
      requires callback.Some? ==> callback.value < |closures|
      modifies `closures, `model, `run
      ensures Valid() && model == ReleasedTaken(old(model), i, final, callback)
    {
      hide Recorded;
      ghost var r := DropTakenPass(model, run, i, final, callback);
      DropHandle(callback);
      Follow(ReleasedTaken(model, i, final, callback), r);
    }

    method GiveUpSlot(i: nat, final: bool, ghost callback: Option<nat>)
      requires Valid() && i < |model.acts| && model.acts[i] == Tearing(TdEnd, final, callback)
      modifies `slotRefs, `owner, `model, `run
      ensures Valid() && model == TdEnded(old(model), i, final)
    {
      hide Recorded;
      ghost var r := EndPass(model, run, i, final, callback);
      if final {
        slotRefs := slotRefs - 1;
        owner := Gone;
      }
      Follow(TdEnded(model, i, final), r);
    }

    /** `teardown` after its block. */
    method DestroyAndRelease(i: nat, final: bool, callback: Option<nat>)
      requires Valid() && i < |model.acts| && model.acts[i] == Tearing(TdDestroy, final, callback)
      modifies this
      ensures Valid() && Grown(old(model), model, None)
      ensures i < |model.acts| && model.acts[i] == Done && (final ==> owner == Gone)
      ensures Undisturbed() && Dispatch !in old(model).locks ==>
        i < |old(model.acts)| && model == TdReleased(old(model), i, final, callback)
    {
      hide Recorded, Grown, TdEnded, ReleasedTaken, Destroyed;
      ghost var m := model;
      Destroy(i, final, callback);
      ghost var m1 := model;
      ReleaseCallback(i, final, callback);
      GrownTransitive(m, m1, model, None);
    }

    /**
     * Unregister and take the closure out, run the owner's destroy call, then release the
     * closure; `final` when the owner's Drop runs it, which also gives up the slot.  Whatever
     * the others do, the call returns with its operation in the log, and after the owner's
     * Drop nothing is registered or stored.  If nobody interferes, the outcome is exact.
     */
    method Teardown(final: bool)
      requires Valid() && owner.Alive?
      requires final ==> forall k :: 0 <= k < |model.acts| ==> model.acts[k].Done? || model.acts[k].Dispatching?
      modifies this
      ensures Valid() && Grown(old(model), model, None) && Logged(old(model), model, TeardownOp)
      ensures |old(model.acts)| < |model.acts| && model.acts[|old(model.acts)|].Done?
      ensures final ==> owner == Gone && destroyed && cell == None && !registered
      ensures Undisturbed() && old(model.locks) == map[] ==> TornDownAsAlone(old(model), model, final)
    {
      hide Recorded;
      ghost var m := model;
      var i := |model.acts|;
      TdStartedGrows(m, final);
      Take(StartTeardown(final));
      ghost var m0 := model;
      if Undisturbed() && m.locks == map[] { TeardownIsAsAlone(m, final); }
      hide Logged, Grown, TakenOut, Unregistered, TdLocked, TdReleased;
      hide TornDownAsAlone, Apply;
      var callback := UnregisterAndTake(i, final);
      ghost var m1 := model;
      DestroyAndRelease(i, final, callback);
      TdGrows(m, m0, m1, model);
      OwnerGone(model, run);
    }
  }
}
