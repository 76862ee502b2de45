/**
 * Stretches of one activity between two waits, as changes of the whole state: what `set`,
 * `teardown` or `trampoline` does from the moment it gets a lock until it may have to wait
 * again.  Each stretch is a run of the step system.
 */
module SlotPasses {
  import opened Common
  import opened SlotSteps
  import opened SlotInvariant
  import opened SlotTheorems

  /** State m is what the run r leads to. */
  ghost predicate Recorded(m: State, r: seq<Label>) {
    Inv(m) && Legal(Init(), r) && Exec(Init(), r) == m
  }

  lemma Record(m: State, r: seq<Label>, l: Label) returns (r': seq<Label>)
    requires Recorded(m, r) && Enabled(m, l)
    ensures Recorded(Apply(m, l), r')
  {
    InvKept(m, l);
    RunAppend(Init(), r, [l]);
    r' := r + [l];
  }

  /** Activity i moves on from point a. */
  function Ticked(m: State, i: nat, a: Act): State
    requires i < |m.acts|
  {
    var x := RefOf(m.sh.cell, a);
    State(ApplyLock(m.locks, i, LockOf(a)), Effect(m.sh, a), ApplyRef(m.closures, x),
          m.acts[i := Next(m.sh, ReachesZero(m.closures, x), a)])
  }

  lemma Tick(m: State, r: seq<Label>, i: nat, a: Act) returns (r': seq<Label>)
    requires Recorded(m, r) && i < |m.acts| && m.acts[i] == a && CanAdvance(m, a)
    ensures Recorded(Ticked(m, i, a), r')
  {
    r' := Record(m, r, Advance(i));
  }

  /** The closure table after one handle on p has been dropped: the last one destroys it. */
  function Dropped(cs: seq<Closure>, p: Option<nat>): (t: seq<Closure>)
    ensures |t| == |cs|
  {
    if p.None? || p.value >= |cs| then cs
    else
      var k := cs[p.value];
      cs[p.value := if k.strong == 1 then Closure(0, k.drops + 1) else Closure(k.strong - 1, k.drops)]
  }

  // ----- set -----

  /** Take the registration lock; leak one slot reference unless that was done before. */
  function Leaked(m: State, i: nat, c: nat): State
    requires i < |m.acts|
  {
    State(m.locks[Registration := i],
          m.sh.(leaked := true, slotRefs := m.sh.slotRefs + Bit(!m.sh.leaked), log := m.sh.log + [SetOp(c)]),
          m.closures, m.acts[i := Setting(AskSlot, c, None, None)])
  }

  lemma LeakPass(m: State, r: seq<Label>, i: nat, c: nat) returns (r': seq<Label>)
    requires Recorded(m, r) && i < |m.acts| && m.acts[i] == Setting(AskReg, c, None, None)
    requires CanAdvance(m, m.acts[i])
    ensures Recorded(Leaked(m, i, c), r')
  {
    hide Recorded;
    var a := Setting(AskReg, c, None, None);
    r' := Tick(m, r, i, a);
    var m1 := Ticked(m, i, a);
    r' := Tick(m1, r', i, Setting(CheckLeaked, c, None, None));
    var m2 := Ticked(m1, i, Setting(CheckLeaked, c, None, None));
    if m.sh.leaked {
      assert m2 == Leaked(m, i, c);
    } else {
      r' := Tick(m2, r', i, Setting(MarkLeaked, c, None, None));
      assert Ticked(m2, i, Setting(MarkLeaked, c, None, None)) == Leaked(m, i, c);
    }
  }

  /** Under the slot lock, put a new `Arc` of the closure into the cell. */
  function Replaced(m: State, i: nat, c: nat): State
    requires i < |m.acts| && c < |m.closures|
  {
    State(m.locks, m.sh.(cell := Some(c)), m.closures[c := Closure(1, m.closures[c].drops)],
          m.acts[i := Setting(AskDispatch, c, m.sh.cell, None)])
  }

  lemma ReplacePass(m: State, r: seq<Label>, i: nat, c: nat) returns (r': seq<Label>)
    requires Recorded(m, r) && i < |m.acts| && m.acts[i] == Setting(AskSlot, c, None, None)
    requires CanAdvance(m, m.acts[i]) && c < |m.closures|
    ensures Recorded(Replaced(m, i, c), r')
  {
    hide Recorded;
    var m1 := Ticked(m, i, Setting(AskSlot, c, None, None));
    var m2 := Ticked(m1, i, Setting(Replace, c, None, None));
    r' := Tick(m, r, i, Setting(AskSlot, c, None, None));
    r' := Tick(m1, r', i, Setting(Replace, c, None, None));
    r' := Tick(m2, r', i, Setting(LeaveSlot, c, m.sh.cell, None));
    assert m.locks[Slot := i] - {Slot} == m.locks;
    assert Ticked(m2, i, Setting(LeaveSlot, c, m.sh.cell, None)) == Replaced(m, i, c);
  }

  /** Enter libmpv's registration call; it stores the callback. */
  function Registered(m: State, i: nat, c: nat, p: Option<nat>): State
    requires i < |m.acts|
  {
    State(m.locks[Dispatch := i], m.sh.(registered := true, ctxKnown := true), m.closures,
          m.acts[i := Setting(InRegister, c, p, None)])
  }

  lemma RegisterPass(m: State, r: seq<Label>, i: nat, c: nat, p: Option<nat>) returns (r': seq<Label>)
    requires Recorded(m, r) && i < |m.acts| && m.acts[i] == Setting(AskDispatch, c, p, None)
    requires CanAdvance(m, m.acts[i])
    ensures Recorded(Registered(m, i, c, p), r')
  {
    hide Recorded;
    var m1 := Ticked(m, i, Setting(AskDispatch, c, p, None));
    r' := Tick(m, r, i, Setting(AskDispatch, c, p, None));
    r' := Tick(m1, r', i, Setting(StoreCallback, c, p, None));
    assert Ticked(m1, i, Setting(StoreCallback, c, p, None)) == Registered(m, i, c, p);
  }

  /** Leave the registration call and the registration lock. */
  function Left(m: State, i: nat, c: nat, p: Option<nat>, child: Option<nat>): State
    requires i < |m.acts|
  {
    State(m.locks - {Dispatch} - {Registration}, m.sh, m.closures, m.acts[i := Setting(DropPrevious, c, p, child)])
  }

  lemma LeavePass(m: State, r: seq<Label>, i: nat, c: nat, p: Option<nat>, child: Option<nat>)
    returns (r': seq<Label>)
    requires Recorded(m, r) && i < |m.acts| && m.acts[i] == Setting(InRegister, c, p, child) && ChildDone(m, child)
    ensures Recorded(Left(m, i, c, p, child), r')
  {
    hide Recorded;
    var m1 := Ticked(m, i, Setting(InRegister, c, p, child));
    r' := Tick(m, r, i, Setting(InRegister, c, p, child));
    r' := Tick(m1, r', i, Setting(LeaveReg, c, p, child));
    assert Ticked(m1, i, Setting(LeaveReg, c, p, child)) == Left(m, i, c, p, child);
  }

  /** Drop the handle on the replaced closure. */
  function ReleasedPrevious(m: State, i: nat, p: Option<nat>): State
    requires i < |m.acts|
  {
    State(m.locks, m.sh, Dropped(m.closures, p), m.acts[i := Done])
  }

  lemma DropPreviousPass(m: State, r: seq<Label>, i: nat, c: nat, p: Option<nat>, child: Option<nat>)
    returns (r': seq<Label>)
    requires Recorded(m, r) && i < |m.acts| && m.acts[i] == Setting(DropPrevious, c, p, child)
    requires p.Some? ==> p.value < |m.closures|
    ensures Recorded(ReleasedPrevious(m, i, p), r')
  {
    hide Recorded;
    var m1 := Ticked(m, i, Setting(DropPrevious, c, p, child));
    r' := Tick(m, r, i, Setting(DropPrevious, c, p, child));
    if p.Some? && m.closures[p.value].strong == 1 {
      r' := Tick(m1, r', i, Setting(FreePrevious, c, p, child));
      assert Ticked(m1, i, Setting(FreePrevious, c, p, child)) == ReleasedPrevious(m, i, p);
    } else {
      assert m1 == ReleasedPrevious(m, i, p);
    }
  }

  // ----- teardown -----

  /** Under libmpv's lock and the registration lock, unregister. */
  function Unregistered(m: State, i: nat, final: bool): State
    requires i < |m.acts|
  {
    State(m.locks, m.sh.(registered := false), m.closures, m.acts[i := Tearing(TdAskSlot, final, None)])
  }

  lemma UnregisterPass(m: State, r: seq<Label>, i: nat, final: bool) returns (r': seq<Label>)
    requires Recorded(m, r) && i < |m.acts| && m.acts[i] == Tearing(TdAskDispatch, final, None)
    requires CanAdvance(m, m.acts[i])
    ensures Recorded(Unregistered(m, i, final), r')
  {
    hide Recorded;
    var m1 := Ticked(m, i, Tearing(TdAskDispatch, final, None));
    r' := Tick(m, r, i, Tearing(TdAskDispatch, final, None));
    r' := Tick(m1, r', i, Tearing(TdUnregister, final, None));
    assert m.locks[Dispatch := i] - {Dispatch} == m.locks;
    assert Ticked(m1, i, Tearing(TdUnregister, final, None)) == Unregistered(m, i, final);
  }

  /** Take the closure; `_reg` is released before the slot guard. */
  function TakenOut(m: State, i: nat, final: bool): State
    requires i < |m.acts|
  {
    State(m.locks - {Registration}, m.sh.(cell := None), m.closures, m.acts[i := Tearing(TdDestroy, final, m.sh.cell)])
  }

  lemma TakePass(m: State, r: seq<Label>, i: nat, final: bool) returns (r': seq<Label>)
    requires Recorded(m, r) && i < |m.acts| && m.acts[i] == Tearing(TdAskSlot, final, None)
    requires CanAdvance(m, m.acts[i])
    ensures Recorded(TakenOut(m, i, final), r')
  {
    hide Recorded;
    var m1 := Ticked(m, i, Tearing(TdAskSlot, final, None));
    var m2 := Ticked(m1, i, Tearing(TdTake, final, None));
    var m3 := Ticked(m2, i, Tearing(TdLeaveReg, final, m.sh.cell));
    r' := Tick(m, r, i, Tearing(TdAskSlot, final, None));
    r' := Tick(m1, r', i, Tearing(TdTake, final, None));
    r' := Tick(m2, r', i, Tearing(TdLeaveReg, final, m.sh.cell));
    r' := Tick(m3, r', i, Tearing(TdLeaveSlot, final, m.sh.cell));
    assert m.locks[Slot := i] - {Registration} - {Slot} == m.locks - {Registration};
    assert Ticked(m3, i, Tearing(TdLeaveSlot, final, m.sh.cell)) == TakenOut(m, i, final);
  }

  /** Drop the handle on the closure that was taken out. */
  function ReleasedTaken(m: State, i: nat, final: bool, p: Option<nat>): State
    requires i < |m.acts|
  {
    State(m.locks, m.sh, Dropped(m.closures, p), m.acts[i := Tearing(TdEnd, final, p)])
  }

  lemma DropTakenPass(m: State, r: seq<Label>, i: nat, final: bool, p: Option<nat>) returns (r': seq<Label>)
    requires Recorded(m, r) && i < |m.acts| && m.acts[i] == Tearing(TdDropTaken, final, p)
    requires p.Some? ==> p.value < |m.closures|
    ensures Recorded(ReleasedTaken(m, i, final, p), r')
  {
    hide Recorded;
    var m1 := Ticked(m, i, Tearing(TdDropTaken, final, p));
    r' := Tick(m, r, i, Tearing(TdDropTaken, final, p));
    if p.Some? && m.closures[p.value].strong == 1 {
      r' := Tick(m1, r', i, Tearing(TdFreeTaken, final, p));
      assert Ticked(m1, i, Tearing(TdFreeTaken, final, p)) == ReleasedTaken(m, i, final, p);
    } else {
      assert m1 == ReleasedTaken(m, i, final, p);
    }
  }

  // ----- trampoline -----

  /** Clone the stored closure under the slot lock. */
  function Cloned(m: State, i: nat, mode: Mode): State
    requires i < |m.acts| && (m.sh.cell.Some? ==> m.sh.cell.value < |m.closures|)
  {
    State(m.locks, m.sh, if m.sh.cell.None? then m.closures else OneMore(m.closures, m.sh.cell.value),
          m.acts[i := Dispatching(if m.sh.cell.Some? then Call else Return, mode, m.sh.cell)])
  }

  function OneMore(cs: seq<Closure>, c: nat): seq<Closure>
    requires c < |cs|
  {
    cs[c := cs[c].(strong := cs[c].strong + 1)]
  }

  lemma ClonePass(m: State, r: seq<Label>, i: nat, mode: Mode) returns (r': seq<Label>)
    requires Recorded(m, r) && i < |m.acts| && m.acts[i] == Dispatching(Enter, mode, None)
    requires CanAdvance(m, m.acts[i]) && (m.sh.cell.Some? ==> m.sh.cell.value < |m.closures|)
    ensures Recorded(Cloned(m, i, mode), r')
  {
    hide Recorded;
    var m1 := Ticked(m, i, Dispatching(Enter, mode, None));
    var m2 := Ticked(m1, i, Dispatching(Clone, mode, None));
    r' := Tick(m, r, i, Dispatching(Enter, mode, None));
    r' := Tick(m1, r', i, Dispatching(Clone, mode, None));
    r' := Tick(m2, r', i, Dispatching(LeaveClone, mode, m.sh.cell));
    assert m.locks[Slot := i] - {Slot} == m.locks;
    assert Ticked(m2, i, Dispatching(LeaveClone, mode, m.sh.cell)) == Cloned(m, i, mode);
  }

  /** Enter the user code. */
  function Invoked(m: State, i: nat, mode: Mode, c: nat): State
    requires i < |m.acts|
  {
    m.(acts := m.acts[i := Dispatching(Invoking, mode, Some(c))])
  }

  /** Return from the user code and drop the clone, which may be the last handle by then. */
  function ReleasedClone(m: State, i: nat, mode: Mode, c: nat): State
    requires i < |m.acts|
  {
    State(m.locks, m.sh, Dropped(m.closures, Some(c)), m.acts[i := Dispatching(Return, mode, Some(c))])
  }

  lemma InvokePass(m: State, r: seq<Label>, i: nat, mode: Mode, c: nat) returns (r': seq<Label>)
    requires Recorded(m, r) && i < |m.acts| && m.acts[i] == Dispatching(Call, mode, Some(c))
    ensures Recorded(Invoked(m, i, mode, c), r')
  {
    hide Recorded;
    r' := Tick(m, r, i, Dispatching(Call, mode, Some(c)));
    assert Ticked(m, i, Dispatching(Call, mode, Some(c))) == Invoked(m, i, mode, c);
  }

  lemma DropClonePass(m: State, r: seq<Label>, i: nat, mode: Mode, c: nat) returns (r': seq<Label>)
    requires Recorded(m, r) && i < |m.acts| && m.acts[i] == Dispatching(Invoking, mode, Some(c))
    requires c < |m.closures|
    ensures Recorded(ReleasedClone(m, i, mode, c), r')
  {
    hide Recorded;
    var m1 := Ticked(m, i, Dispatching(Invoking, mode, Some(c)));
    var m2 := Ticked(m1, i, Dispatching(DropClone, mode, Some(c)));
    r' := Tick(m, r, i, Dispatching(Invoking, mode, Some(c)));
    r' := Tick(m1, r', i, Dispatching(DropClone, mode, Some(c)));
    if m.closures[c].strong == 1 {
      r' := Tick(m2, r', i, Dispatching(FreeClone, mode, Some(c)));
      assert Ticked(m2, i, Dispatching(FreeClone, mode, Some(c))) == ReleasedClone(m, i, mode, c);
    } else {
      assert m2 == ReleasedClone(m, i, mode, c);
    }
  }

  // ----- being overtaken -----

  /** Activity i is under way; if it is a synchronous dispatch, its parent p waits for it. */
  predicate Us(m: State, i: nat, p: Option<nat>) {
    && i < |m.acts| && !m.acts[i].Done?
    && (p.Some? ==> WaitsFor(m, p.value, i))
  }

  predicate WaitsFor(m: State, p: nat, i: nat) {
    p < |m.acts| && p != i && m.acts[p].Setting? && m.acts[p].pc.InRegister? && m.acts[p].child == Some(i)
  }

  /** A step of some other thread. */
  predicate ByOthers(l: Label, i: nat) {
    l != Advance(i) && l != StartNested(i)
  }

  /** What only ever grows from m to t, with activity p where it was. */
  predicate Grown(m: State, t: State, p: Option<nat>) {
    && |m.acts| <= |t.acts| && |m.closures| <= |t.closures| && m.sh.log <= t.sh.log
    && (m.sh.leaked ==> t.sh.leaked) && (m.sh.ctxKnown ==> t.sh.ctxKnown)
    && (p.Some? && p.value < |m.acts| ==> t.acts[p.value] == m.acts[p.value])
  }

  /** What other threads can never change about activity i, and its parent p, from m to t. */
  predicate Overtaken(m: State, t: State, i: nat, p: Option<nat>) {
    Grown(m, t, p) && i < |m.acts| && t.acts[i] == m.acts[i]
  }

  lemma GrownTransitive(m: State, t: State, u: State, p: Option<nat>)
    requires Grown(m, t, p) && Grown(t, u, p)
    ensures Grown(m, u, p)
  {
  }

  lemma OvertakenTransitive(m: State, t: State, u: State, i: nat, p: Option<nat>)
    requires Overtaken(m, t, i, p) && Overtaken(t, u, i, p)
    ensures Overtaken(m, u, i, p)
  {
  }

  /** A clone that is dropped again leaves the counts as they were, if another handle was there. */
  lemma CloneThenDrop(cs: seq<Closure>, c: nat)
    requires c < |cs| && cs[c].strong >= 1
    ensures Dropped(OneMore(cs, c), Some(c)) == cs
  {
  }

  lemma ClonedGrows(m: State, i: nat, p: Option<nat>, mode: Mode)
    requires Us(m, i, p) && m.acts[i] == Dispatching(Enter, mode, None)
    requires m.sh.cell.Some? ==> m.sh.cell.value < |m.closures|
    ensures Us(Cloned(m, i, mode), i, p) && Grown(m, Cloned(m, i, mode), p)
    ensures |Cloned(m, i, mode).closures| == |m.closures|
    ensures Cloned(m, i, mode).acts[i] == Dispatching(if m.sh.cell.Some? then Call else Return, mode, m.sh.cell)
  {
  }

  /** A dispatch that nobody overtakes leaves everything but itself as it was. */
  lemma DispatchAlone(m: State, i: nat, mode: Mode)
    requires i < |m.acts| && m.acts[i].Dispatching?
    requires m.sh.cell.Some? ==> m.sh.cell.value < |m.closures| && m.closures[m.sh.cell.value].strong >= 1
    ensures var t := Cloned(m, i, mode);
            if m.sh.cell.None? then t == m.(acts := m.acts[i := Dispatching(Return, mode, None)])
            else
              var c := m.sh.cell.value;
              ReleasedClone(Invoked(t, i, mode, c), i, mode, c)
              == m.(acts := m.acts[i := Dispatching(Return, mode, Some(c))])
  {
    if m.sh.cell.Some? { CloneThenDrop(m.closures, m.sh.cell.value); }
  }

  lemma EffectGrows(sh: Shared, a: Act)
    ensures var t := Effect(sh, a);
            sh.log <= t.log && (sh.leaked ==> t.leaked) && (sh.ctxKnown ==> t.ctxKnown)
  {
  }

  lemma OthersOvertake(m: State, l: Label, i: nat, p: Option<nat>)
    requires Enabled(m, l) && ByOthers(l, i) && Us(m, i, p)
    ensures Us(Apply(m, l), i, p) && Overtaken(m, Apply(m, l), i, p)
  {
    if l.Advance? { EffectGrows(m.sh, m.acts[l.i]); }
  }

  /** While activity i waits, somebody else can move. */
  lemma SomebodyElse(m: State, r: seq<Label>, i: nat, p: Option<nat>) returns (k: nat)
    requires Recorded(m, r) && Us(m, i, p) && !CanAdvance(m, m.acts[i])
    ensures k < |m.acts| && CanAdvance(m, m.acts[k]) && k != i
  {
    k := NoDeadlock(m, {});
  }

  /** ... and it brings everybody nearer to their end. */
  lemma OthersFinish(m: State, r: seq<Label>, k: nat)
    requires Recorded(m, r) && Enabled(m, Advance(k))
    ensures Sum(Apply(m, Advance(k)).acts, Remaining) < Sum(m.acts, Remaining)
  {
    StepShrinks(m, {}, k);
  }

  // ----- what the stretches of set and teardown leave behind -----

  /** op took the registration lock after m and before t. */
  predicate Logged(m: State, t: State, op: Op) {
    |m.sh.log| <= |t.sh.log| && op in t.sh.log[|m.sh.log|..]
  }

  lemma LoggedStays(m: State, t: State, u: State, op: Op)
    requires Logged(m, t, op) && Grown(t, u, None)
    ensures Logged(m, u, op)
  {
    var k :| |m.sh.log| <= k < |t.sh.log| && t.sh.log[k] == op;
    assert u.sh.log[k] == op;
  }

  lemma LoggedSince(m: State, t: State, u: State, op: Op)
    requires Grown(m, t, None) && Logged(t, u, op)
    ensures Logged(m, u, op)
  {
    var k :| |t.sh.log| <= k < |u.sh.log| && u.sh.log[k] == op;
    assert u.sh.log[k] == op;
  }

  lemma LeakedGrows(m: State, i: nat, c: nat)
    requires i < |m.acts|
    ensures var t := Leaked(m, i, c);
            && Grown(m, t, None) && Logged(m, t, SetOp(c)) && t.sh.leaked
            && |t.acts| == |m.acts| && t.acts[i] == Setting(AskSlot, c, None, None)
  {
    var t := Leaked(m, i, c);
    assert t.sh.log[|m.sh.log|] == SetOp(c);
  }

  lemma ReplacedGrows(m: State, i: nat, c: nat)
    requires i < |m.acts| && c < |m.closures|
    ensures var t := Replaced(m, i, c);
            && Grown(m, t, None) && |t.acts| == |m.acts|
            && t.acts[i] == Setting(AskDispatch, c, m.sh.cell, None)
  {
  }

  lemma RegisteredGrows(m: State, i: nat, c: nat, p: Option<nat>)
    requires i < |m.acts|
    ensures var t := Registered(m, i, c, p);
            && Grown(m, t, None) && t.sh.ctxKnown && t.sh.leaked == m.sh.leaked
            && |t.acts| == |m.acts| && t.acts[i] == Setting(InRegister, c, p, None)
  {
  }

  /** A set that nobody overtakes: the state in which it returns. */
  lemma SetAlone(m: State, i: nat, c: nat, child: Option<nat>, acts: seq<Act>)
    requires m.locks == map[] && i == |m.acts| && c == |m.closures| && i < |acts|
    requires m.sh.cell.Some? ==> m.sh.cell.value < c
    ensures var started := m.(closures := m.closures + [Closure(0, 0)],
                              acts := m.acts + [Setting(AskReg, c, None, None)]);
            var inside := Registered(Replaced(Leaked(started, i, c), i, c), i, c, m.sh.cell);
            var t := ReleasedPrevious(Left(inside.(acts := acts), i, c, m.sh.cell, child), i, m.sh.cell);
            && t.locks == map[] && t.closures == Dropped(m.closures, m.sh.cell) + [Closure(1, 0)]
            && t.sh == m.sh.(leaked := true, slotRefs := m.sh.slotRefs + Bit(!m.sh.leaked), cell := Some(c),
                             registered := true, ctxKnown := true, log := m.sh.log + [SetOp(c)])
            && t.acts == acts[i := Done]
  {
  }

  lemma LeftGrows(m: State, i: nat, c: nat, p: Option<nat>, child: Option<nat>)
    requires i < |m.acts|
    ensures var t := Left(m, i, c, p, child);
            Grown(m, t, None) && |t.acts| == |m.acts| && t.acts[i] == Setting(DropPrevious, c, p, child)
  {
  }

  lemma ReleasedPreviousGrows(m: State, i: nat, p: Option<nat>)
    requires i < |m.acts|
    ensures var t := ReleasedPrevious(m, i, p);
            Grown(m, t, None) && |t.acts| == |m.acts| && t.acts[i] == Done && t.sh == m.sh
  {
  }

  /** A held closure is in the table. */
  lemma HeldIsInTable(m: State, r: seq<Label>, i: nat, c: nat)
    requires Recorded(m, r) && i < |m.acts| && Held(m.acts[i]) == Some(c)
    ensures c < |m.closures|
  {
    assert Reachable(m);
    NeverUsedAfterFree(m, i, c);
  }

  /** Waiting done, the registration lock taken: a teardown is in the log. */
  function TdLocked(m: State, i: nat, final: bool): State
    requires i < |m.acts|
  {
    State(m.locks[Registration := i], m.sh.(log := m.sh.log + [TeardownOp]), m.closures,
          m.acts[i := Tearing(TdAskDispatch, final, None)])
  }

  lemma TdLockedGrows(m: State, i: nat, final: bool)
    requires i < |m.acts|
    ensures var t := TdLocked(m, i, final);
            && Grown(m, t, None) && Logged(m, t, TeardownOp)
            && |t.acts| == |m.acts| && t.acts[i] == Tearing(TdAskDispatch, final, None)
  {
    var t := TdLocked(m, i, final);
    assert t.sh.log[|m.sh.log|] == TeardownOp;
  }

  lemma UnregisteredGrows(m: State, i: nat, final: bool)
    requires i < |m.acts|
    ensures var t := Unregistered(m, i, final);
            Grown(m, t, None) && |t.acts| == |m.acts| && t.acts[i] == Tearing(TdAskSlot, final, None)
  {
  }

  lemma TakenOutGrows(m: State, i: nat, final: bool)
    requires i < |m.acts|
    ensures var t := TakenOut(m, i, final);
            Grown(m, t, None) && |t.acts| == |m.acts| && t.acts[i] == Tearing(TdDestroy, final, m.sh.cell)
  {
  }

  /** The owner's destroy call has run. */
  function Destroyed(m: State, i: nat, final: bool, p: Option<nat>): State
    requires i < |m.acts|
  {
    m.(sh := m.sh.(destroyed := m.sh.destroyed || final), acts := m.acts[i := Tearing(TdDropTaken, final, p)])
  }

  lemma DestroyPass(m: State, r: seq<Label>, i: nat, final: bool, p: Option<nat>) returns (r': seq<Label>)
    requires Recorded(m, r) && i < |m.acts| && m.acts[i] == Tearing(TdDestroy, final, p) && CanAdvance(m, m.acts[i])
    ensures Recorded(Destroyed(m, i, final, p), r')
  {
    r' := Tick(m, r, i, Tearing(TdDestroy, final, p));
    assert Ticked(m, i, Tearing(TdDestroy, final, p)) == Destroyed(m, i, final, p);
  }

  /** The teardown is over; in the owner's Drop the owner's slot reference is gone too. */
  function TdEnded(m: State, i: nat, final: bool): State
    requires i < |m.acts|
  {
    m.(sh := if final then m.sh.(slotRefs := m.sh.slotRefs - 1, owner := Gone) else m.sh, acts := m.acts[i := Done])
  }

  lemma EndPass(m: State, r: seq<Label>, i: nat, final: bool, p: Option<nat>) returns (r': seq<Label>)
    requires Recorded(m, r) && i < |m.acts| && m.acts[i] == Tearing(TdEnd, final, p)
    ensures Recorded(TdEnded(m, i, final), r')
  {
    r' := Tick(m, r, i, Tearing(TdEnd, final, p));
    assert Ticked(m, i, Tearing(TdEnd, final, p)) == TdEnded(m, i, final);
  }

  /** The last stretch of a teardown that nobody overtakes. */
  function TdReleased(m: State, i: nat, final: bool, p: Option<nat>): State
    requires i < |m.acts|
  {
    TdEnded(ReleasedTaken(Destroyed(m, i, final, p), i, final, p), i, final)
  }

  lemma TdReleasedGrows(m: State, i: nat, final: bool, p: Option<nat>)
    requires i < |m.acts|
    ensures Grown(m, Destroyed(m, i, final, p), None)
    ensures Grown(m, TdEnded(ReleasedTaken(m, i, final, p), i, final), None)
  {
  }

  /** A teardown that nobody overtakes: the state in which it returns. */
  lemma TeardownAlone(m: State, final: bool)
    requires m.locks == map[]
    ensures var i := |m.acts|;
            var started := m.(sh := if final then m.sh.(owner := Dropping) else m.sh,
                              acts := m.acts + [Tearing(TdAskReg, final, None)]);
            var taken := TakenOut(Unregistered(TdLocked(started, i, final), i, final), i, final);
            var t := TdReleased(taken, i, final, m.sh.cell);
            && t.locks == map[] && t.closures == Dropped(m.closures, m.sh.cell) && t.acts == m.acts + [Done]
            && t.sh == m.sh.(registered := false, cell := None, destroyed := m.sh.destroyed || final,
                             owner := if final then Gone else m.sh.owner,
                             slotRefs := m.sh.slotRefs - Bit(final), log := m.sh.log + [TeardownOp])
  {
  }
}
