/** States of the callback slot protocol that do occur. */
module SlotExamples {
  import opened Common
  import opened SlotSteps
  import opened SlotInvariant
  import opened SlotTheorems
  import opened SlotPasses

  /** A first set, just after it leaked the slot reference. */
  const LEAKED_ONCE := State(map[Registration := 0], Shared(true, 2, Alive, None, false, false, false, [SetOp(0)]),
                             [Closure(0, 0)], [Setting(AskSlot, 0, None, None)])

  const STARTED := State(map[], Init().sh, [Closure(0, 0)], [Setting(AskReg, 0, None, None)])

  lemma NothingYet()
    ensures Recorded(Init(), [])
  {
    InitInv();
  }

  lemma AfterLeak() returns (r: seq<Label>)
    ensures Recorded(LEAKED_ONCE, r)
  {
    hide Recorded;
    NothingYet();
    r := Record(Init(), [], StartSet);
    assert Apply(Init(), StartSet) == STARTED;
    r := LeakPass(STARTED, r, 0, 0);
    assert Leaked(STARTED, 0, 0) == LEAKED_ONCE;
  }

  /** It has stored closure 0 and is inside libmpv's registration call. */
  lemma InsideRegister() returns (m: State, r: seq<Label>)
    ensures Recorded(m, r) && m.sh.cell == Some(0) && m.sh.ctxKnown && m.sh.owner.Alive?
    ensures |m.closures| == 1 && m.acts == [Setting(InRegister, 0, None, None)]
    ensures m.locks == map[Registration := 0, Dispatch := 0]
  {
    r := AfterLeak();
    hide Recorded;
    m := LEAKED_ONCE;
    r := ReplacePass(m, r, 0, 0);
    m := SlotPasses.Replaced(m, 0, 0);
    r := RegisterPass(m, r, 0, 0, None);
    m := Registered(m, 0, 0, None);
  }

  /** The set has returned. */
  lemma AfterSet() returns (m: State, r: seq<Label>)
    ensures Recorded(m, r) && m.sh.cell == Some(0) && m.sh.ctxKnown && m.sh.owner.Alive?
    ensures |m.closures| == 1 && m.acts == [Done] && m.locks == map[]
  {
    m, r := InsideRegister();
    hide Recorded;
    r := LeavePass(m, r, 0, 0, None, None);
    m := Left(m, 0, 0, None, None);
    r := DropPreviousPass(m, r, 0, 0, None, None);
    m := ReleasedPrevious(m, 0, None);
    assert m.locks == map[];
  }

  /** Dispatch 1 enters the user code of the stored closure, which then calls set. */
  lemma CallFromCallback(m0: State, r0: seq<Label>, mode: Mode) returns (m: State, r: seq<Label>)
    requires Recorded(m0, r0) && m0.sh.cell == Some(0) && m0.sh.owner.Alive? && |m0.closures| == 1
    requires |m0.acts| == 2 && m0.acts[1] == Dispatching(Enter, mode, None) && Slot !in m0.locks
    ensures Recorded(m, r) && InUserCode(m, 1) && m.acts[1].mode == mode
    ensures |m.acts| == 3 && m.acts[2] == Setting(AskReg, 1, None, None)
  {
    hide Recorded;
    r := ClonePass(m0, r0, 1, mode);
    m := Cloned(m0, 1, mode);
    r := InvokePass(m, r, 1, mode, 0);
    m := Invoked(m, 1, mode, 0);
    r := Record(m, r, StartSet);
    m := Apply(m, StartSet);
  }

  /** A callback that libmpv dispatches without holding a lock may call set on its own slot:
      the state occurs, and the nested call completes while the callback waits for it. */
  lemma UnlockedReentryCompletes() returns (s: State, ls: seq<Label>)
    ensures Reachable(s) && InUserCode(s, 1) && s.acts[1].mode.Unlocked?
    ensures |s.acts| == 3 && s.acts[2] == Setting(AskReg, 1, None, None)
    ensures Legal(s, ls) && Advance(1) !in ls && 2 < |Exec(s, ls).acts| && Exec(s, ls).acts[2].Done?
  {
    var m, r := AfterSet();
    r := Record(m, r, StartDispatch(false));
    m := Apply(m, StartDispatch(false));
    s, r := CallFromCallback(m, r, Unlocked);
    assert Reachable(s);
    ls := NestedCallCompletes(s, 1, 2);
  }

  lemma NestedCallCompletes(s: State, i: nat, j: nat) returns (ls: seq<Label>)
    requires Reachable(s) && InUserCode(s, i) && s.acts[i].mode.Unlocked?
    requires j < |s.acts| && BeforeRegister(s.acts[j])
    ensures Legal(s, ls) && Advance(i) !in ls && j < |Exec(s, ls).acts| && Exec(s, ls).acts[j].Done?
  {
    ReentrantCallDeadlocksIff(s, i, j);
    ls :| Legal(s, ls) && Advance(i) !in ls && j < |Exec(s, ls).acts| && Exec(s, ls).acts[j].Done?;
  }

  /** The same call from a dispatch under libmpv's lock: the state occurs, and the nested
      call never completes while the callback waits for it. */
  lemma LockedReentryDeadlocks() returns (s: State)
    ensures Reachable(s) && InUserCode(s, 1) && s.acts[1].mode.Locked?
    ensures |s.acts| == 3 && s.acts[2] == Setting(AskReg, 1, None, None)
    ensures forall ls :: Legal(s, ls) && Advance(1) !in ls && 2 < |Exec(s, ls).acts| ==> !Exec(s, ls).acts[2].Done?
  {
    var m, r := AfterSet();
    r := Record(m, r, StartDispatch(true));
    m := Apply(m, StartDispatch(true));
    r := Tick(m, r, 1, Dispatching(AwaitDispatch, Locked, None));
    m := Ticked(m, 1, Dispatching(AwaitDispatch, Locked, None));
    s, r := CallFromCallback(m, r, Locked);
    assert Reachable(s);
    ReentrantCallDeadlocksIff(s, 1, 2);
  }

  /** The same call from a dispatch that runs synchronously in a registration call. */
  lemma NestedReentryDeadlocks() returns (s: State)
    ensures Reachable(s) && InUserCode(s, 1) && s.acts[1].mode.Nested?
    ensures |s.acts| == 3 && s.acts[2] == Setting(AskReg, 1, None, None)
    ensures forall ls :: Legal(s, ls) && Advance(1) !in ls && 2 < |Exec(s, ls).acts| ==> !Exec(s, ls).acts[2].Done?
  {
    var m, r := InsideRegister();
    r := Record(m, r, StartNested(0));
    m := Apply(m, StartNested(0));
    s, r := CallFromCallback(m, r, Nested);
    assert Reachable(s);
    ReentrantCallDeadlocksIff(s, 1, 2);
  }
}
