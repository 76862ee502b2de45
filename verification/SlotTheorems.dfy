/** What the callback slot promises, for every interleaving and every run. */
module SlotTheorems {
  import opened Common
  import opened SlotSteps
  import opened SlotInvariant

  // ----- closures are never used after, or freed more than, once -----

  /** The activities that hold a counted handle on closure c. */
  function Holders(acts: seq<Act>, c: nat): set<nat> {
    set i | 0 <= i < |acts| && Held(acts[i]) == Some(c)
  }

  lemma {:induction false} HoldersCounted(acts: seq<Act>, c: nat)
    ensures |Holders(acts, c)| == Sum(acts, Handles(c))
  {
    if acts == [] {
      assert Holders(acts, c) == {};
    } else {
      var n := |acts| - 1;
      HoldersCounted(acts[..n], c);
      assert Holders(acts, c) == Holders(acts[..n], c) + (if Held(acts[n]) == Some(c) then {n} else {});
    }
  }

  /** In every reachable state each strong count is the number of holders: the cell, the
      in-flight clones, `previous` in set, `callback` in teardown. */
  lemma StrongCountIsHolders(s: State, c: nat)
    requires Reachable(s)
    ensures Strong(s.closures, c) == Bit(s.sh.cell == Some(c)) + |Holders(s.acts, c)|
  {
    ReachableInv(s);
    assert CountAt(s, c);
    HoldersCounted(s.acts, c);
  }

  /** A closure that is stored, held or being invoked exists, is counted and has not been destroyed. */
  lemma NeverUsedAfterFree(s: State, i: nat, c: nat)
    requires Reachable(s)
    requires s.sh.cell == Some(c) || (i < |s.acts| && Held(s.acts[i]) == Some(c))
    ensures c < |s.closures| && s.closures[c].strong > 0 && s.closures[c].drops == 0
  {
    ReachableInv(s);
    assert CountAt(s, c);
    if i < |s.acts| { SumUpdate(s.acts, i, s.acts[i], Handles(c)); }
  }

  /** The user code of a dispatch runs on a live closure, and under neither crate lock. */
  lemma InvokedClosureIsLive(s: State, i: nat)
    requires Reachable(s)
    requires i < |s.acts| && s.acts[i].Dispatching? && s.acts[i].dpc.Invoking?
    ensures s.acts[i].got.Some?
    ensures Drops(s.closures, s.acts[i].got.value) == 0 && Strong(s.closures, s.acts[i].got.value) > 0
    ensures forall l :: l in s.locks && s.locks[l] == i ==> l == Dispatch
  {
    ReachableInv(s);
    assert Shaped(s.acts[i]);
    NeverUsedAfterFree(s, i, s.acts[i].got.value);
    assert LockAt(s.locks, s.acts[i], i, Registration) && LockAt(s.locks, s.acts[i], i, Slot);
  }

  /** A destructor is run at most once, only when no handle is left, and under neither crate lock. */
  lemma DestructorRunsAlone(s: State, i: nat, c: nat)
    requires Reachable(s) && i < |s.acts|
    requires CanAdvance(s, s.acts[i]) && RefOf(s.sh.cell, s.acts[i]) == Free(c)
    ensures c < |s.closures| && s.closures[c].drops == 0 && s.closures[c].strong == 0
    ensures s.sh.cell != Some(c) && Holders(s.acts, c) == {}
    ensures AdvanceBy(s, i).closures[c].drops == 1
    ensures forall l :: l in s.locks && s.locks[l] == i ==> l == Dispatch
  {
    ReachableInv(s);
    assert CountAt(s, c);
    SumUpdate(s.acts, i, s.acts[i], Solely(c));
    StrongCountIsHolders(s, c);
    assert LockAt(s.locks, s.acts[i], i, Registration) && LockAt(s.locks, s.acts[i], i, Slot);
  }

  // ----- conservation -----

  datatype Fate = Freed | InCell | OnlyInFlight

  /** Where a closure is.  `OnlyInFlight`: not in the cell, not yet destroyed. */
  function FateOf(s: State, c: nat): Fate {
    if Drops(s.closures, c) > 0 then Freed
    else if s.sh.cell == Some(c) then InCell
    else OnlyInFlight
  }

  function Tally(s: State, n: nat, f: Fate): nat {
    if n == 0 then 0 else Tally(s, n - 1, f) + Bit(FateOf(s, n - 1) == f)
  }

  lemma {:induction false} SumWitness(acts: seq<Act>, k: Kind) returns (i: nat)
    requires Sum(acts, k) > 0
    ensures i < |acts| && Weight(acts[i], k) > 0
  {
    var n := |acts| - 1;
    if Weight(acts[n], k) > 0 {
      i := n;
    } else {
      i := SumWitness(acts[..n], k);
    }
  }

  /** A closure that is neither freed nor stored is held by some activity. */
  lemma InFlightHasHolder(s: State, c: nat) returns (i: nat)
    requires Reachable(s) && c < |s.closures| && FateOf(s, c) == OnlyInFlight
    ensures i < |s.acts| && (Held(s.acts[i]) == Some(c) || Sole(s.acts[i]) == Some(c))
  {
    ReachableInv(s);
    assert CountAt(s, c);
    if Strong(s.closures, c) > 0 {
      i := SumWitness(s.acts, Handles(c));
    } else {
      i := SumWitness(s.acts, Solely(c));
    }
  }

  lemma {:induction false} TallyTotal(s: State, n: nat)
    ensures Tally(s, n, Freed) + Tally(s, n, InCell) + Tally(s, n, OnlyInFlight) == n
  {
    if n > 0 { TallyTotal(s, n - 1); }
  }

  lemma {:induction false} TallyCell(s: State, n: nat)
    requires s.sh.cell.Some? ==> Drops(s.closures, s.sh.cell.value) == 0
    ensures Tally(s, n, InCell) == Bit(s.sh.cell.Some? && s.sh.cell.value < n)
  {
    if n > 0 { TallyCell(s, n - 1); }
  }

  /** Closures passed to set == freed + in the cell (none or one) + held only by activities;
      and no destructor has run more than once. */
  lemma Conservation(s: State)
    requires Reachable(s)
    ensures |s.closures| == Tally(s, |s.closures|, Freed) + Bit(s.sh.cell.Some?) + Tally(s, |s.closures|, OnlyInFlight)
    ensures forall c :: 0 <= c < |s.closures| ==> 0 <= s.closures[c].drops <= 1
  {
    ReachableInv(s);
    TallyTotal(s, |s.closures|);
    if s.sh.cell.Some? { NeverUsedAfterFree(s, 0, s.sh.cell.value); }
    TallyCell(s, |s.closures|);
    forall c | 0 <= c < |s.closures| ensures 0 <= s.closures[c].drops <= 1 { assert CountAt(s, c); }
  }

  predicate Quiet(s: State) {
    forall i :: 0 <= i < |s.acts| ==> s.acts[i].Done?
  }

  lemma {:induction false} QuietSum(acts: seq<Act>, k: Kind)
    requires forall i :: 0 <= i < |acts| ==> acts[i].Done?
    ensures Sum(acts, k) == 0
  {
    if acts != [] { QuietSum(acts[..|acts| - 1], k); }
  }

  /** With nothing in flight, every closure but the stored one has been destroyed exactly
      once; after the owner's final teardown that is every closure ever set. */
  lemma AllFreedOnceAfterTeardown(s: State, c: nat)
    requires Reachable(s) && Quiet(s) && c < |s.closures|
    ensures s.closures[c] == if s.sh.cell == Some(c) then Closure(1, 0) else Closure(0, 1)
    ensures !s.sh.owner.Alive? ==> s.sh.owner.Gone? && s.closures[c] == Closure(0, 1)
  {
    ReachableInv(s);
    assert CountAt(s, c);
    QuietSum(s.acts, Handles(c));
    QuietSum(s.acts, Solely(c));
  }

  // ----- registration follows the cell -----

  /** Registered implies non-empty, always; with the registration lock free the two are
      equivalent and the cell holds what the last operation in lock order left there. */
  lemma RegistrationMatchesCell(s: State)
    requires Reachable(s)
    ensures s.sh.registered ==> s.sh.cell.Some?
    ensures Registration !in s.locks ==> s.sh.registered == s.sh.cell.Some? && s.sh.cell == Expected(s.sh.log)
  {
    ReachableInv(s);
  }

  /** While a set is inside its register call the cell holds that set's closure, so any
      dispatch that clones now, synchronous or concurrent, clones the new closure. */
  lemma DispatchDuringRegister(s: State, i: nat, j: nat)
    requires Reachable(s) && i < |s.acts| && j < |s.acts|
    requires s.acts[j].Setting? && (s.acts[j].pc.StoreCallback? || s.acts[j].pc.InRegister?)
    requires s.acts[i].Dispatching? && s.acts[i].dpc.Clone?
    ensures s.sh.cell == Some(s.acts[j].c)
    ensures AdvanceBy(s, i).acts[i].got == Some(s.acts[j].c)
  {
    ReachableInv(s);
    assert LockAt(s.locks, s.acts[j], j, Registration);
  }

  /** A dispatch that clones while a callback is registered gets a closure to call; one that
      clones after the owner is gone gets none and does nothing. */
  lemma DispatchFindsClosure(s: State, i: nat)
    requires Reachable(s) && i < |s.acts| && s.acts[i].Dispatching? && s.acts[i].dpc.Clone?
    ensures s.sh.registered ==> AdvanceBy(s, i).acts[i].got.Some?
    ensures s.sh.owner.Gone? ==> AdvanceBy(s, i).acts[i].got.None? && AdvanceBy(s, i).closures == s.closures
  {
    RegistrationMatchesCell(s);
    ReachableInv(s);
  }

  // ----- the slot allocation -----

  /** Owner and leak each account for one slot reference, and at most one is ever leaked
      (the one being leaked right now is the only exception, under the registration lock);
      so a dispatch always dereferences a live slot, however late it runs. */
  lemma SlotOutlivesDispatches(s: State)
    requires Reachable(s)
    ensures s.sh.slotRefs == Bit(!s.sh.owner.Gone?) + Bit(s.sh.leaked) + Sum(s.acts, Leaking)
    ensures Sum(s.acts, Leaking) <= 1 && (s.sh.leaked ==> Sum(s.acts, Leaking) == 0)
    ensures Registration !in s.locks ==> Sum(s.acts, Leaking) == 0
    ensures (exists i :: 0 <= i < |s.acts| && s.acts[i].Dispatching?) || s.sh.ctxKnown ==> s.sh.slotRefs >= 1
  {
    ReachableInv(s);
    if Sum(s.acts, Leaking) > 0 {
      var i := SumWitness(s.acts, Leaking);
      assert LeakAt(s.sh, s.acts[i]) && LockAt(s.locks, s.acts[i], i, Registration);
      OneLeaking(s, i);
    }
  }

  lemma OneLeaking(s: State, i: nat)
    requires LockInv(s) && i < |s.acts| && Weight(s.acts[i], Leaking) > 0
    ensures Sum(s.acts, Leaking) == 1
  {
    SumUpdate(s.acts, i, Done, Leaking);
    if Sum(s.acts[i := Done], Leaking) > 0 {
      var j := SumWitness(s.acts[i := Done], Leaking);
      Exclusive(s, i, j, Registration);
    }
  }

  // ----- the final destroy -----

  /** The owner's destroy call runs once the callback is unregistered and the cell is
      empty, and before the removed closure is released: a panic in that closure's
      destructor cannot skip it. */
  lemma DestroyBeforeRelease(s: State, i: nat)
    requires Reachable(s) && i < |s.acts| && IsFinal(s.acts[i])
    ensures s.acts[i].tpc.TdDestroy? ==> !s.sh.registered && s.sh.cell.None?
    ensures s.acts[i].tpc.TdDropTaken? || s.acts[i].tpc.TdFreeTaken? || s.acts[i].tpc.TdEnd? ==> s.sh.destroyed
  {
    ReachableInv(s);
    assert OwnerAt(s.sh, s.acts[i]);
  }

  // ----- progress -----

  /** Lock ranking: registration before libmpv's dispatch lock before the slot lock. */
  function Rank(l: LockId): nat {
    match l case Registration => 0 case Dispatch => 1 case Slot => 2
  }

  /** An activity only ever waits for a lock above all the locks it holds. */
  lemma WaitsUpwards(a: Act, l: LockId)
    requires Shaped(a) && LockOf(a).Take? && Holds(a, l)
    ensures Rank(l) < Rank(LockOf(a).l)
  {
  }

  /** Activities stuck in user code, in dispatches for which libmpv holds no lock. */
  predicate Parked(s: State, stuck: set<nat>) {
    forall i :: i in stuck ==>
      i < |s.acts| && s.acts[i].Dispatching? && s.acts[i].dpc.Invoking? && s.acts[i].mode.Unlocked?
  }

  predicate QuietBut(s: State, stuck: set<nat>) {
    forall i :: 0 <= i < |s.acts| ==> s.acts[i].Done? || i in stuck
  }

  lemma HolderMoves(s: State, i: nat, stuck: set<nat>) returns (k: nat)
    requires LockInv(s) && NestInv(s) && Parked(s, stuck) && i < |s.acts| && !s.acts[i].Done? && i !in stuck
    requires LockOf(s.acts[i]).Take? ==> LockOf(s.acts[i]).l !in s.locks
    requires Slot !in s.locks || !(s.acts[i].Setting? && s.acts[i].pc.InRegister?)
    requires s.acts[i].Tearing? && s.acts[i].tpc.TdDestroy? ==> Dispatch !in s.locks
    ensures k < |s.acts| && k !in stuck && CanAdvance(s, s.acts[k])
  {
    var a := s.acts[i];
    if a.Setting? && a.pc.InRegister? && !ChildDone(s, a.child) {
      assert NestAt(s.acts, a);
      k := a.child.value;
      assert Shaped(s.acts[k]);
    } else {
      k := i;
    }
  }

  /**
   * No deadlock, and nothing waits for user code: in every reachable state with unfinished
   * activities some activity can move, even though libmpv holds its dispatch lock around
   * registration calls and around dispatches, and even if any number of callbacks in
   * dispatches without that lock never return.
   */
  lemma NoDeadlock(s: State, stuck: set<nat>) returns (k: nat)
    requires Inv(s) && Parked(s, stuck) && !QuietBut(s, stuck)
    ensures Enabled(s, Advance(k)) && k !in stuck
  {
    var i: nat;
    if Slot in s.locks {
      i := s.locks[Slot];
      assert LockAt(s.locks, s.acts[i], i, Slot);
    } else if Dispatch in s.locks {
      i := s.locks[Dispatch];
      assert LockAt(s.locks, s.acts[i], i, Dispatch);
    } else if Registration in s.locks {
      i := s.locks[Registration];
      assert LockAt(s.locks, s.acts[i], i, Registration);
    } else {
      i :| 0 <= i < |s.acts| && !s.acts[i].Done? && i !in stuck;
    }
    assert Shaped(s.acts[i]);
    if LockOf(s.acts[i]).Take? {
      forall l | Holds(s.acts[i], l) ensures Rank(l) < Rank(LockOf(s.acts[i]).l) { WaitsUpwards(s.acts[i], l); }
    }
    k := HolderMoves(s, i, stuck);
  }

  lemma WorkShrinks(sh: Shared, last: bool, a: Act)
    requires !a.Done?
    ensures Work(Next(sh, last, a)) < Work(a)
  {
    match a
    case Setting(_, _, _, _) =>
    case Tearing(_, _, _) =>
    case Dispatching(_, _, _) =>
  }

  lemma OwnerOnlyLeaves(sh: Shared, a: Act)
    ensures !sh.owner.Alive? ==> !Effect(sh, a).owner.Alive?
  {
  }

  /** A step of an activity that is not stuck: less is left to do, nothing is started. */
  lemma StepShrinks(s: State, stuck: set<nat>, k: nat)
    requires Inv(s) && Parked(s, stuck) && Enabled(s, Advance(k)) && k !in stuck
    ensures var t := Apply(s, Advance(k));
            && Inv(t) && Parked(t, stuck)
            && Sum(t.acts, Remaining) < Sum(s.acts, Remaining)
            && |t.closures| == |s.closures| && |t.acts| == |s.acts|
            && (!s.sh.owner.Alive? ==> !t.sh.owner.Alive?)
  {
    var t := AdvanceBy(s, k);
    WorkShrinks(s.sh, ReachesZero(s.closures, RefOf(s.sh.cell, s.acts[k])), s.acts[k]);
    SumUpdate(s.acts, k, t.acts[k], Remaining);
    InvKept(s, Advance(k));
    OwnerOnlyLeaves(s.sh, s.acts[k]);
  }

  /** Steps of activities in progress, the stuck ones excepted. */
  predicate Finishing(ls: seq<Label>, stuck: set<nat>) {
    forall i :: 0 <= i < |ls| ==> ls[i].Advance? && ls[i].i !in stuck
  }

  /** Every run of activities in progress, in any order, is bounded by the work they have
      left; it starts nothing and keeps the stuck callbacks where they are. */
  lemma {:induction false} FinishingRunsAreBounded(s: State, stuck: set<nat>, ls: seq<Label>)
    requires Inv(s) && Parked(s, stuck) && Legal(s, ls) && Finishing(ls, stuck)
    ensures var t := Exec(s, ls);
            && Inv(t) && Parked(t, stuck)
            && |ls| + Sum(t.acts, Remaining) <= Sum(s.acts, Remaining)
            && |t.closures| == |s.closures| && |t.acts| == |s.acts|
            && (!s.sh.owner.Alive? ==> !t.sh.owner.Alive?)
    decreases |ls|
  {
    if ls != [] {
      assert ls[0].Advance? && ls[0].i !in stuck;
      StepShrinks(s, stuck, ls[0].i);
      hide Apply, Enabled, Inv, Sum, Parked;
      FinishingRunsAreBounded(Apply(s, ls[0]), stuck, ls[1..]);
    }
  }

  /** No activity in progress can move, the stuck ones aside. */
  ghost predicate Halted(s: State, stuck: set<nat>) {
    forall k: nat :: Enabled(s, Advance(k)) ==> k in stuck
  }

  /** Every run of activities in progress that goes on as long as it can leaves nothing
      unfinished but the stuck callbacks. */
  lemma HaltedRunsAreQuiet(s: State, stuck: set<nat>, ls: seq<Label>)
    requires Inv(s) && Parked(s, stuck) && Legal(s, ls) && Finishing(ls, stuck)
    requires Halted(Exec(s, ls), stuck)
    ensures |ls| <= Sum(s.acts, Remaining) && QuietBut(Exec(s, ls), stuck)
  {
    FinishingRunsAreBounded(s, stuck, ls);
    var t := Exec(s, ls);
    if !QuietBut(t, stuck) {
      var k := NoDeadlock(t, stuck);
      assert false;
    }
  }

  /** From every reachable state the activities that are not stuck can all be run to their
      end, in at most the steps they have left, without starting a new one. */
  lemma {:induction false} RunsToQuiet(s: State, stuck: set<nat>) returns (ls: seq<Label>)
    requires Inv(s) && Parked(s, stuck)
    ensures Legal(s, ls) && Finishing(ls, stuck) && |ls| <= Sum(s.acts, Remaining)
    ensures QuietBut(Exec(s, ls), stuck) && |Exec(s, ls).acts| == |s.acts|
    decreases Sum(s.acts, Remaining)
  {
    if QuietBut(s, stuck) {
      ls := [];
    } else {
      var k := NoDeadlock(s, stuck);
      StepShrinks(s, stuck, k);
      hide Apply, Enabled, Inv, Sum, Parked;
      var rest := RunsToQuiet(Apply(s, Advance(k)), stuck);
      ls := [Advance(k)] + rest;
      assert ls[1..] == rest;
    }
  }

  lemma {:induction false} RunAppend(s: State, l1: seq<Label>, l2: seq<Label>)
    requires Legal(s, l1) && Legal(Exec(s, l1), l2)
    ensures Legal(s, l1 + l2) && Exec(s, l1 + l2) == Exec(Exec(s, l1), l2)
    decreases |l1|
  {
    hide Apply, Enabled;
    if l1 == [] {
      assert l1 + l2 == l2;
    } else {
      RunAppend(Apply(s, l1[0]), l1[1..], l2);
      assert (l1 + l2)[1..] == l1[1..] + l2;
    }
  }

  /** Once the owner's teardown has begun, every run of the activities in flight that goes on
      as long as it can is bounded and ends with every closure ever passed to set destroyed
      exactly once. */
  lemma TeardownFreesEverything(s: State, ls: seq<Label>)
    requires Reachable(s) && !s.sh.owner.Alive?
    requires Legal(s, ls) && Finishing(ls, {}) && Halted(Exec(s, ls), {})
    ensures |ls| <= Sum(s.acts, Remaining)
    ensures Quiet(Exec(s, ls)) && |Exec(s, ls).closures| == |s.closures|
    ensures forall c :: 0 <= c < |s.closures| ==> Exec(s, ls).closures[c] == Closure(0, 1)
  {
    ReachableInv(s);
    HaltedRunsAreQuiet(s, {}, ls);
    FinishingRunsAreBounded(s, {}, ls);
    var run :| Legal(Init(), run) && Exec(Init(), run) == s;
    RunAppend(Init(), run, ls);
    var t := Exec(s, ls);
    assert Legal(Init(), run + ls) && Exec(Init(), run + ls) == t;
    forall c | 0 <= c < |s.closures| ensures t.closures[c] == Closure(0, 1) { AllFreedOnceAfterTeardown(t, c); }
  }

  // ----- a callback that calls set or teardown on its own slot -----

  /** A set or teardown that has not yet entered libmpv's registration call. */
  predicate BeforeRegister(a: Act) {
    || (a.Setting? && (a.pc.AskReg? || a.pc.CheckLeaked? || a.pc.MarkLeaked? || a.pc.AskSlot? || a.pc.Replace?
                       || a.pc.LeaveSlot? || a.pc.AskDispatch?))
    || (a.Tearing? && (a.tpc.TdAskReg? || a.tpc.TdAskDispatch?))
  }

  predicate InUserCode(s: State, i: nat) {
    i < |s.acts| && s.acts[i].Dispatching? && s.acts[i].dpc.Invoking?
  }

  /** While a dispatch made under libmpv's lock stays in user code, that lock stays taken. */
  lemma UserCodePinsDispatchLock(s: State, i: nat)
    requires Inv(s) && InUserCode(s, i) && !s.acts[i].mode.Unlocked?
    ensures Dispatch in s.locks
  {
    if s.acts[i].mode.Locked? {
      assert LockAt(s.locks, s.acts[i], i, Dispatch);
    } else {
      var p: nat :| Parent(s.acts, p, i);
      assert LockAt(s.locks, s.acts[p], p, Dispatch);
    }
  }

  lemma StaysBefore(s: State, i: nat, j: nat, l: Label)
    requires Inv(s) && InUserCode(s, i) && !s.acts[i].mode.Unlocked? && Enabled(s, l) && l != Advance(i)
    requires j < |s.acts| && BeforeRegister(s.acts[j])
    ensures var t := Apply(s, l);
            InUserCode(t, i) && t.acts[i] == s.acts[i] && j < |t.acts| && BeforeRegister(t.acts[j])
  {
    UserCodePinsDispatchLock(s, i);
  }

  /**
   * A callback that calls set or teardown from inside a dispatch waits for that call.  If
   * libmpv runs the dispatch under its lock, or synchronously in a registration call, the
   * call never gets past registration in any run in which the callback does not return ...
   */
  lemma {:induction false} ReentrantCallStarves(s: State, i: nat, j: nat, ls: seq<Label>)
    requires Inv(s) && InUserCode(s, i) && !s.acts[i].mode.Unlocked?
    requires j < |s.acts| && BeforeRegister(s.acts[j])
    requires Legal(s, ls) && Advance(i) !in ls
    ensures j < |Exec(s, ls).acts| && BeforeRegister(Exec(s, ls).acts[j])
    decreases |ls|
  {
    if ls != [] {
      StaysBefore(s, i, j, ls[0]);
      InvKept(s, ls[0]);
      ReentrantCallStarves(Apply(s, ls[0]), i, j, ls[1..]);
    }
  }

  /** ... and otherwise the call can complete while the callback waits: the nested call
      deadlocks exactly when libmpv holds its dispatch lock for the dispatch. */
  lemma ReentrantCallDeadlocksIff(s: State, i: nat, j: nat)
    requires Reachable(s) && InUserCode(s, i) && j < |s.acts| && BeforeRegister(s.acts[j])
    ensures (exists ls :: Legal(s, ls) && Advance(i) !in ls && j < |Exec(s, ls).acts| && Exec(s, ls).acts[j].Done?)
       <==> s.acts[i].mode.Unlocked?
  {
    ReachableInv(s);
    if s.acts[i].mode.Unlocked? {
      var ls := RunsToQuiet(s, {i});
      assert Legal(s, ls) && Advance(i) !in ls && Exec(s, ls).acts[j].Done?;
    } else {
      forall ls | Legal(s, ls) && Advance(i) !in ls ensures j < |Exec(s, ls).acts| && !Exec(s, ls).acts[j].Done? {
        ReentrantCallStarves(s, i, j, ls);
      }
    }
  }
}
