/** What the ownership rules of the crate promise, for every run and every interleaving of drops. */
module OwnershipTheorems {
  import opened Common
  import opened OwnershipSteps
  import opened OwnershipInvariant

  // ----- termination -----

  /** The core is terminated at most once, and once its drop has begun, or it has been
      terminated, every render context has been freed, exactly once, and is gone. */
  lemma ContextsFreedBeforeTermination(w: World, j: nat)
    requires Reachable(w)
    requires w.sh.terminations > 0 || (j < |w.objs| && w.objs[j].Core?)
    ensures w.sh.terminations <= 1
    ensures forall i :: 0 <= i < |w.objs| && w.objs[i].Context? ==> w.objs[i].cpc.CGone? && w.objs[i].freeCalls == 1
    ensures forall i :: 0 <= i < |w.objs| ==> !HoldsArc(w.objs[i])
  {
    ReachableInv(w);
    forall i | 0 <= i < |w.objs| ensures !HoldsArc(w.objs[i]) && ObjAt(w.sh, |w.frees|, w.objs[i]) {
      if w.sh.terminations > 0 { NoOwnerAfterEnd(w, i); } else { CoreMeansEnd(w, j); }
    }
  }

  /** The terminate call happens with no strong reference left and no registration in
      progress, and it is the first one. */
  lemma TerminatesOnceAtTheEnd(w: World, i: nat, flag: bool)
    requires Reachable(w) && i < |w.objs| && w.objs[i].Core? && w.objs[i].mpc.MTerminate?
    ensures w.sh.strong == 0 && w.sh.terminations == 0
    ensures AdvanceBy(w, i, flag).sh.terminations == 1
    ensures forall j :: 0 <= j < |w.objs| ==> !HoldsArc(w.objs[j]) && !w.objs[j].Registration?
  {
    ReachableInv(w);
    SumUpdate(w.objs, i, w.objs[i], Terminators);
    assert ObjAt(w.sh, |w.frees|, w.objs[i]);
    CoreMeansEnd(w, i);
    assert !exists k :: 0 <= k < |w.objs| && IsOwner(w.objs[k]);
  }

  /** A live context keeps the core alive, whatever the user has dropped. */
  lemma ContextKeepsCoreAlive(w: World, i: nat)
    requires Reachable(w) && i < |w.objs| && HoldsArc(w.objs[i])
    ensures w.sh.strong > 0 && w.sh.terminations == 0 && !w.sh.building
    ensures forall j :: 0 <= j < |w.objs| ==> !w.objs[j].Core?
  {
    ReachableInv(w);
    SumUpdate(w.objs, i, w.objs[i], Arcs);
    forall j | 0 <= j < |w.objs| ensures !w.objs[j].Core? {
      if w.objs[j].Core? { CoreMeansEnd(w, j); }
    }
  }

  // ----- boxes -----

  /** No box is ever freed twice, and a box some object or slot still owns has not been freed. */
  lemma FreedAtMostOnce(w: World, b: BoxId)
    requires Reachable(w) && b < |w.frees|
    ensures 0 <= w.frees[b] <= 1
    ensures w.frees[b] == 1 <==> Owners(w, b) == 0
  {
    ReachableInv(w);
    assert BoxAt(w, b);
  }

  /** The get_proc_address box lives until libmpv has freed the render context that uses it. */
  lemma GpaOutlivesContext(w: World, i: nat, b: BoxId)
    requires Reachable(w) && i < |w.objs| && w.objs[i].Context? && w.objs[i].gpa == Some(b)
    requires w.objs[i].freeCalls == 0
    ensures b < |w.frees| && w.frees[b] == 0
  {
    ReachableInv(w);
    assert ObjAt(w.sh, |w.frees|, w.objs[i]) && BoxAt(w, b);
    SumUpdate(w.objs, i, w.objs[i], Boxes(b));
  }

  /** While the core lives, every open-function pointer libmpv holds is owned by exactly one
      of the registry and a registration in progress, and is not freed. */
  lemma ProtocolsOutliveCore(w: World, b: BoxId)
    requires Reachable(w) && b in w.sh.table && w.sh.terminations == 0
    ensures b < |w.frees| && w.frees[b] == 0 && Owners(w, b) == 1
    ensures (b in w.sh.registry) != (exists i :: 0 <= i < |w.objs| && InFlight(w.objs[i], b))
  {
    ReachableInv(w);
    assert TableAt(w, b) && BoxAt(w, b);
    OccursIn(w.sh.registry, b);
    if i :| 0 <= i < |w.objs| && InFlight(w.objs[i], b) {
      SumUpdate(w.objs, i, w.objs[i], Boxes(b));
    }
  }

  /** A registry box is freed only after termination; a refused registration frees a box
      libmpv does not hold, in its next step. */
  lemma WhenProtocolsAreFreed(w: World, i: nat, b: BoxId, flag: bool)
    requires Reachable(w) && i < |w.objs| && FreedAt(w.sh, w.objs[i]) == Some(b)
    requires Moves(w.objs[i]) && !Aborts(w.sh, w.objs[i], flag)
    ensures b in w.sh.registry && w.objs[i].Core? ==> w.sh.terminations == 1
    ensures w.objs[i].Registration? ==> b !in w.sh.table && AdvanceBy(w, i, flag).objs[i].Done?
    ensures b < |w.frees| && w.frees[b] == 0 && AdvanceBy(w, i, flag).frees[b] == 1
  {
    ReachableInv(w);
    assert ObjAt(w.sh, |w.frees|, w.objs[i]) && BoxAt(w, b);
    SumUpdate(w.objs, i, w.objs[i], Boxes(b));
    OccursIn(w.sh.registry, b);
  }

  /** What a drop frees, it frees after libmpv's last use: the core's drop after termination,
      a context's drop after the context has been freed.  The closure of the callback goes
      first, then the field: the protocols, or the get_proc_address box. */
  lemma DropsFreeLast(w: World, i: nat, b: BoxId)
    requires Reachable(w) && i < |w.objs| && Moves(w.objs[i]) && FreedAt(w.sh, w.objs[i]) == Some(b)
    ensures w.objs[i].Core? ==> w.sh.terminations == 1
    ensures w.objs[i].Core? && b in w.sh.registry ==> w.sh.wakeup.None?
    ensures w.objs[i].Context? ==> w.objs[i].freeCalls == 1
    ensures w.objs[i].Context? && w.objs[i].gpa == Some(b) ==> w.objs[i].update.None?
  {
    ReachableInv(w);
    assert ObjAt(w.sh, |w.frees|, w.objs[i]) && BoxAt(w, b);
    OccursIn(w.sh.registry, b);
    SumUpdate(w.objs, i, w.objs[i], Boxes(b));
  }

  /** A box is given up for good only when a context was reported that is not there. */
  lemma OnlyForgottenBoxesLeak(w: World, l: Label)
    requires Enabled(w, l)
    ensures Apply(w, l).sh.leaked
            == w.sh.leaked + if l.NewContext? && l.outcome.NullContext? && l.opengl then {|w.frees|} else {}
  {
  }

  // ----- the end of a run -----

  /** Nothing is being dropped and the user has let go of everything. */
  predicate Ended(w: World) {
    !w.sh.building && forall i :: 0 <= i < |w.objs| ==> !Moves(w.objs[i]) && !IsOwner(w.objs[i])
  }

  lemma {:induction false} EndedSum(objs: seq<Obj>, k: Kind)
    requires forall i :: 0 <= i < |objs| ==> !Moves(objs[i]) && !IsOwner(objs[i])
    ensures Sum(objs, k) == 0
  {
    if objs != [] { EndedSum(objs[..|objs| - 1], k); }
  }

  /** The box is in the wakeup slot or the registry, or was given up for good. */
  predicate Stored(w: World, b: BoxId) {
    w.sh.wakeup == Some(b) || b in w.sh.registry || b in w.sh.leaked
  }

  /** A stored closure captured an Arc of its own player: a reference cycle. */
  predicate Cyclic(w: World) {
    exists b :: 0 <= b < |w.holds| && w.holds[b] && Stored(w, b)
  }

  /** While a stored closure holds an Arc, the core is not terminated, whatever the user has
      dropped; and the closure is there. */
  lemma CycleKeepsCoreAlive(w: World)
    requires Reachable(w) && Cyclic(w)
    ensures w.sh.strong > 0 && w.sh.terminations == 0 && !w.sh.building
    ensures forall b :: 0 <= b < |w.holds| && Stored(w, b) ==> b < |w.frees| && w.frees[b] == 0
  {
    ReachableInv(w);
    forall b | 0 <= b < |w.holds| && Stored(w, b) ensures b < |w.frees| && w.frees[b] == 0 { StoredIsLive(w, b); }
    var b :| 0 <= b < |w.holds| && w.holds[b] && Stored(w, b);
    HeldSome(w.holds, w.frees, b);
  }

  lemma StoredIsLive(w: World, b: BoxId)
    requires CountInv(w) && BoxInv(w) && Stored(w, b)
    ensures b < |w.frees| && w.frees[b] == 0
  {
    assert BoxAt(w, b);
    OccursIn(w.sh.registry, b);
  }

  /** Clearing the wakeup callback breaks every cycle but those through closures that can
      never be given back: protocols, and closures of contexts that were not returned. */
  lemma ClearingBreaksCycle(w: World, arc: bool)
    requires Reachable(w) && Enabled(w, SetWakeup(true, arc))
    ensures Cyclic(Apply(w, SetWakeup(true, arc)))
       <==> exists b :: 0 <= b < |w.holds| && w.holds[b] && (b in w.sh.registry || b in w.sh.leaked)
  {
    var t := Apply(w, SetWakeup(true, arc));
    assert t.holds == w.holds;
    if b :| 0 <= b < |w.holds| && w.holds[b] && (b in w.sh.registry || b in w.sh.leaked) {
      assert Stored(t, b);
    }
  }

  /** At the end of a run every box has been freed exactly once or is still stored. */
  lemma EndedBoxes(w: World, b: BoxId)
    requires Inv(w) && Ended(w) && b < |w.frees|
    ensures w.frees[b] + Bit(Stored(w, b)) == 1
  {
    assert BoxAt(w, b);
    EndedSum(w.objs, Boxes(b));
    OccursIn(w.sh.registry, b);
  }

  /** However the builder chain went and whatever panicked: the handle has been terminated,
      exactly once, if and only if no stored closure holds an Arc of its own player; then
      every box has been freed exactly once or deliberately leaked.  Every context has been
      freed exactly once in any case. */
  lemma EndIsClean(w: World)
    requires Reachable(w) && Ended(w)
    ensures w.sh.terminations == Bit(!Cyclic(w))
    ensures forall b :: 0 <= b < |w.frees| ==> w.frees[b] + Bit(Stored(w, b)) == 1
    ensures !Cyclic(w) ==> forall b :: 0 <= b < |w.frees| ==> w.frees[b] + Bit(b in w.sh.leaked) == 1
    ensures forall i :: 0 <= i < |w.objs| && w.objs[i].Context? ==> w.objs[i].freeCalls == 1
  {
    ReachableInv(w);
    EndedSum(w.objs, Arcs);
    EndedSum(w.objs, Terminators);
    forall b | 0 <= b < |w.frees| ensures w.frees[b] + Bit(Stored(w, b)) == 1 { EndedBoxes(w, b); }
    forall i | 0 <= i < |w.objs| && w.objs[i].Context? ensures w.objs[i].freeCalls == 1 {
      assert ObjAt(w.sh, |w.frees|, w.objs[i]);
    }
    if Cyclic(w) {
      CycleKeepsCoreAlive(w);
    } else {
      forall b | 0 <= b < |w.holds| && w.holds[b] ensures w.frees[b] != 0 { EndedBoxes(w, b); }
      HeldNone(w.holds, w.frees);
      assert w.sh.wakeup.None? && w.sh.registry == [];
    }
  }

  // ----- drops always finish -----

  /** Steps of destructors and registrations that have begun, in any order, with any panics
      and with any closure kept alive by a dispatch in flight. */
  predicate IsDrop(l: Label) {
    l.Advance? || l.LateWakeup? || l.LateUpdate?
  }

  /** Nothing is being dropped or registered. */
  predicate AtRest(w: World) {
    forall i :: 0 <= i < |w.objs| ==> !Moves(w.objs[i])
  }

  /** Bound on the steps an object still takes, those of what it sets off included. */
  function Work(o: Obj): nat {
    match o
    case Handle(pc, _) => if pc.Dropping? then 7 else 0
    case Context(pc, _, update, _, _) =>
      ContextWork(pc) + 9 * Bit(update.Some? && UpdateOwned(pc))
    case Failed(pc, _, _) => if pc.FFreeGpa? then 15 else 7
    case Core(pc, _) =>
      (match pc
       case MUnregister => 5 case MTake => 4 case MTerminate => 3 case MDropWakeup => 2 case MFreeProtocols => 1)
    case Registration(pc, _, _) => if pc.RAdd? then 10 else 9
    case Releasing(_, _) => 8
    case Done => 0
  }

  function ContextWork(pc: ContextPc): nat {
    match pc
    case Live => 0 case CUnregister => 19 case CTake => 18 case CFree => 17
    case CDropUpdate => 16 case CFreeGpa => 15 case CDropCore => 7 case CGone => 0
  }

  function TotalWork(objs: seq<Obj>): nat {
    if objs == [] then 0 else TotalWork(objs[..|objs| - 1]) + Work(objs[|objs| - 1])
  }

  /** The work left in a world: that of its objects, and what the slot and the registry hold. */
  function Potential(w: World): nat {
    TotalWork(w.objs) + SharedWork(w.sh)
  }

  function SharedWork(sh: Shared): nat {
    8 * |sh.registry| + 9 * Bit(sh.wakeup.Some?)
  }

  function WorkOf(more: seq<Obj>): nat {
    if |more| == 1 then Work(more[0]) else 0
  }

  lemma WorkAppend(objs: seq<Obj>, more: seq<Obj>)
    requires |more| <= 1
    ensures TotalWork(objs + more) == TotalWork(objs) + WorkOf(more)
  {
    if |more| == 1 {
      assert (objs + more)[..|objs|] == objs;
    } else {
      assert objs + more == objs;
    }
  }

  lemma {:induction false} WorkUpdate(objs: seq<Obj>, i: nat, o: Obj)
    requires i < |objs|
    ensures TotalWork(objs[i := o]) == TotalWork(objs) - Work(objs[i]) + Work(o)
  {
    var n := |objs| - 1;
    if i == n {
      assert objs[i := o][..n] == objs[..n];
    } else {
      WorkUpdate(objs[..n], i, o);
      assert objs[i := o][..n] == objs[..n][i := o];
    }
  }

  /** A step leaves less to do, by as much as the drop of a captured Arc if it frees a box. */
  lemma WorkShrinks(sh: Shared, o: Obj, flag: bool)
    requires Moves(o)
    ensures |Continues(sh, o)| <= 1
    ensures Work(Next(sh, o, flag)) + WorkOf(Continues(sh, o)) + SharedWork(Effect(sh, o, flag))
            + 7 * Bit(FreedAt(sh, o).Some?) < Work(o) + SharedWork(sh)
  {
    match o
    case Core(_, _) =>
    case Context(_, _, _, _, _) => ContextWorkShrinks(sh, o, flag);
    case _ =>
  }

  lemma ContextWorkShrinks(sh: Shared, o: Obj, flag: bool)
    requires Moves(o) && o.Context?
    ensures Work(Next(sh, o, flag)) + WorkOf(Continues(sh, o)) + 7 * Bit(FreedAt(sh, o).Some?) < Work(o)
    ensures SharedWork(Effect(sh, o, flag)) == SharedWork(sh)
  {
  }

  /** Every step of a drop, panicking or not, leaves less to do, unless it aborts the run. */
  lemma DropShrinks(w: World, l: Label)
    requires IsDrop(l) && Enabled(w, l)
    ensures Apply(w, l).sh.aborted || Potential(Apply(w, l)) < Potential(w)
  {
    if l.Advance? {
      AdvanceShrinks(w, l.i, l.flag);
    } else if l.LateWakeup? {
      WorkAppend(w.objs, Replaced(w.sh.wakeup));
    } else {
      var o := w.objs[l.i];
      WorkUpdate(w.objs, l.i, o.(update := None));
      WorkAppend(w.objs[l.i := o.(update := None)], Replaced(o.update));
    }
  }

  lemma AdvanceShrinks(w: World, i: nat, flag: bool)
    requires i < |w.objs| && Moves(w.objs[i])
    ensures var t := AdvanceBy(w, i, flag); t.sh.aborted || Potential(t) < Potential(w)
  {
    var o := w.objs[i];
    WorkShrinks(w.sh, o, flag);
    SetsOffFollows(w, o, flag);
    hide Continues, Effect, Next, SetsOff, DropsArc;
    WorkUpdate(w.objs, i, Next(w.sh, o, flag));
    WorkAppend(w.objs[i := Next(w.sh, o, flag)], SetsOff(w, o, flag));
  }

  /** Every run of drop steps is bounded by the work at its start, whatever panics: what it
      has done and what it has left add up to no more, unless it ends in an abort. */
  lemma {:induction false} DropRunsAreBounded(w: World, ls: seq<Label>)
    requires Legal(w, ls) && forall k :: 0 <= k < |ls| ==> IsDrop(ls[k])
    ensures |ls| <= Potential(w) + 1
    ensures !Exec(w, ls).sh.aborted ==> |ls| + Potential(Exec(w, ls)) <= Potential(w)
    decreases |ls|
  {
    if ls != [] {
      assert IsDrop(ls[0]);
      DropShrinks(w, ls[0]);
      if Apply(w, ls[0]).sh.aborted {
        assert ls[1..] == [];
      }
      DropRunsAreBounded(Apply(w, ls[0]), ls[1..]);
    }
  }

  /** No drop step is possible any more. */
  ghost predicate Stuck(w: World) {
    forall l :: IsDrop(l) ==> !Enabled(w, l)
  }

  /** No drop ever waits: a run of drop steps stops only when everything begun is done, or
      when a second panic has ended the run. */
  lemma StuckIffDone(w: World)
    ensures Stuck(w) <==> w.sh.aborted || AtRest(w)
  {
    if Stuck(w) && !w.sh.aborted {
      forall i | 0 <= i < |w.objs| ensures !Moves(w.objs[i]) {
        assert !Enabled(w, Advance(i, false));
      }
    }
  }

  /** Every run of drop steps, panics included, that goes on as long as it can is bounded
      and ends with nothing left to drop, or aborted; and from every state that has not
      aborted there is one that does not abort.  Other owners may be alive meanwhile. */
  lemma {:induction false} DropsFinish(w: World) returns (run: seq<Label>)
    requires !w.sh.aborted
    ensures Legal(w, run) && (forall k :: 0 <= k < |run| ==> IsDrop(run[k]))
    ensures AtRest(Exec(w, run)) && !Exec(w, run).sh.aborted
    ensures forall ls :: Legal(w, ls) && (forall k :: 0 <= k < |ls| ==> IsDrop(ls[k])) && Stuck(Exec(w, ls)) ==>
      |ls| <= Potential(w) + 1 && (Exec(w, ls).sh.aborted || AtRest(Exec(w, ls)))
    decreases Potential(w)
  {
    run := SomeDropRun(w);
    forall ls | Legal(w, ls) && (forall k :: 0 <= k < |ls| ==> IsDrop(ls[k])) && Stuck(Exec(w, ls))
      ensures |ls| <= Potential(w) + 1 && (Exec(w, ls).sh.aborted || AtRest(Exec(w, ls)))
    {
      DropRunsAreBounded(w, ls);
      StuckIffDone(Exec(w, ls));
    }
  }

  lemma {:induction false} SomeDropRun(w: World) returns (run: seq<Label>)
    requires !w.sh.aborted
    ensures Legal(w, run) && (forall k :: 0 <= k < |run| ==> IsDrop(run[k]))
    ensures AtRest(Exec(w, run)) && !Exec(w, run).sh.aborted
    decreases Potential(w)
  {
    if AtRest(w) {
      run := [];
    } else {
      var i :| 0 <= i < |w.objs| && Moves(w.objs[i]);
      var l := Advance(i, false);
      assert !Apply(w, l).sh.aborted;
      DropShrinks(w, l);
      var rest := SomeDropRun(Apply(w, l));
      run := [l] + rest;
      assert run[1..] == rest;
    }
  }

  // ----- letting go -----

  predicate NoOwners(w: World) {
    !w.sh.building && forall j :: 0 <= j < |w.objs| ==> !IsOwner(w.objs[j])
  }

  lemma OwnersStay(w: World, l: Label)
    requires NoOwners(w) && IsDrop(l) && Enabled(w, l)
    ensures NoOwners(Apply(w, l))
  {
    var t := Apply(w, l);
    forall j | 0 <= j < |t.objs| ensures !IsOwner(t.objs[j]) {
      if j < |w.objs| && j != l.i { assert t.objs[j] == w.objs[j]; }
    }
  }

  lemma {:induction false} NobodyReturns(w: World, ls: seq<Label>)
    requires NoOwners(w) && Legal(w, ls) && forall k :: 0 <= k < |ls| ==> IsDrop(ls[k])
    ensures NoOwners(Exec(w, ls))
    decreases |ls|
  {
    if ls != [] {
      assert IsDrop(ls[0]);
      OwnersStay(w, ls[0]);
      NobodyReturns(Apply(w, ls[0]), ls[1..]);
    }
  }

  lemma {:induction false} RunAppend(w: World, l1: seq<Label>, l2: seq<Label>)
    requires Legal(w, l1) && Legal(Exec(w, l1), l2)
    ensures Legal(w, l1 + l2) && Exec(w, l1 + l2) == Exec(Exec(w, l1), l2)
    decreases |l1|
  {
    hide Apply, Enabled;
    if l1 == [] {
      assert l1 + l2 == l2;
    } else {
      RunAppend(Apply(w, l1[0]), l1[1..], l2);
      assert (l1 + l2)[1..] == l1[1..] + l2;
    }
  }

  /** Once the user has let go of everything, no drop step adds or breaks a cycle. */
  lemma CycleKept(w: World, l: Label)
    requires Inv(w) && NoOwners(w) && IsDrop(l) && Enabled(w, l)
    ensures Cyclic(Apply(w, l)) <==> Cyclic(w)
  {
    if w.objs[l.i].Core? {
      NoCycleAtEnd(w, l.i);
      NoCycleAfterEnd(w, l);
    } else {
      NobodyRegisters(w, l.i);
      StoredUnchanged(w, l);
    }
  }

  lemma NobodyRegisters(w: World, i: nat)
    requires BorrowInv(w) && NoOwners(w) && i < |w.objs|
    ensures !w.objs[i].Registration?
  {
  }

  lemma NoCycleAtEnd(w: World, i: nat)
    requires Inv(w) && i < |w.objs| && w.objs[i].Core?
    ensures !Cyclic(w)
  {
    assert ObjAt(w.sh, |w.frees|, w.objs[i]);
    if b :| 0 <= b < |w.holds| && w.holds[b] && Stored(w, b) {
      StoredIsLive(w, b);
      HeldSome(w.holds, w.frees, b);
      assert false;
    }
  }

  lemma NoCycleAfterEnd(w: World, l: Label)
    requires IsDrop(l) && Enabled(w, l) && w.objs[l.i].Core? && !Cyclic(w)
    ensures !Cyclic(Apply(w, l))
  {
    var t := Apply(w, l);
    assert t.holds == w.holds && forall b :: Stored(t, b) ==> Stored(w, b);
  }

  lemma StoredUnchanged(w: World, l: Label)
    requires IsDrop(l) && Enabled(w, l) && !w.objs[l.i].Core? && !w.objs[l.i].Registration?
    ensures Cyclic(Apply(w, l)) <==> Cyclic(w)
  {
    var t := Apply(w, l);
    assert t.holds == w.holds && forall b :: Stored(t, b) <==> Stored(w, b);
  }

  lemma {:induction false} CycleKeptByRuns(w: World, ls: seq<Label>)
    requires Inv(w) && NoOwners(w) && Legal(w, ls) && forall k :: 0 <= k < |ls| ==> IsDrop(ls[k])
    ensures Cyclic(Exec(w, ls)) <==> Cyclic(w)
    decreases |ls|
  {
    if ls != [] {
      assert IsDrop(ls[0]);
      InvKept(w, ls[0]);
      OwnersStay(w, ls[0]);
      CycleKept(w, ls[0]);
      hide Cyclic, Apply, Enabled, Inv, NoOwners;
      CycleKeptByRuns(Apply(w, ls[0]), ls[1..]);
    }
  }

  /** Whatever has happened so far, once the user has let go of everything: every run of the
      drops in progress, in any order and with any further panics, is bounded, and where it
      cannot go on it has aborted on a second panic, or it has ended; the handle has then been
      terminated, exactly once, if and only if no stored closure held an Arc of its own player
      when the user let go, and in that case every box has been freed exactly once or
      deliberately leaked. */
  lemma LettingGoEndsClean(w: World, ls: seq<Label>)
    requires Reachable(w) && NoOwners(w)
    requires Legal(w, ls) && (forall k :: 0 <= k < |ls| ==> IsDrop(ls[k])) && Stuck(Exec(w, ls))
    ensures |ls| <= Potential(w) + 1
    ensures var t := Exec(w, ls);
            t.sh.aborted ||
            (Ended(t) && t.sh.terminations == Bit(!Cyclic(w))
             && (forall b :: 0 <= b < |t.frees| ==> t.frees[b] + Bit(Stored(t, b)) == 1)
             && (!Cyclic(w) ==> forall b :: 0 <= b < |t.frees| ==> t.frees[b] + Bit(b in t.sh.leaked) == 1))
  {
    DropRunsAreBounded(w, ls);
    var t := Exec(w, ls);
    StuckIffDone(t);
    NobodyReturns(w, ls);
    ReachableInv(w);
    CycleKeptByRuns(w, ls);
    var run :| Legal(Init(), run) && Exec(Init(), run) == w;
    RunAppend(Init(), run, ls);
    assert Legal(Init(), run + ls) && Exec(Init(), run + ls) == t;
    hide Cyclic, Inv;
    if !t.sh.aborted {
      EndIsClean(t);
    }
  }

  lemma Prepend(w: World, l: Label, ls: seq<Label>)
    requires Enabled(w, l) && Legal(Apply(w, l), ls)
    ensures Legal(w, [l] + ls) && Exec(w, [l] + ls) == Exec(Apply(w, l), ls)
  {
    hide Apply, Enabled;
    assert ([l] + ls)[0] == l && ([l] + ls)[1..] == ls;
  }

  /** A player whose wakeup closure captures an Arc of it, before and after the user drops
      the only handle. */
  function SelfWaking(handle: Obj, strong: int): World {
    World(Shared(false, strong, 0, Some(0), [], {}, {}, false), [0], [true], [handle])
  }

  lemma MakeSelfWaking()
    ensures Enabled(Init(), Build(true)) && Enabled(Apply(Init(), Build(true)), SetWakeup(false, true))
    ensures Apply(Apply(Init(), Build(true)), SetWakeup(false, true)) == SelfWaking(Handle(Held, false), 2)
  {
    assert IsOwner(Apply(Init(), Build(true)).objs[0]);
  }

  lemma LetGoOfSelfWaking()
    ensures var w := SelfWaking(Handle(Held, false), 2); var t := SelfWaking(Handle(Dropping, false), 2);
            && Enabled(w, DropHandle(0, false)) && Apply(w, DropHandle(0, false)) == t
            && Enabled(t, Advance(0, false)) && Apply(t, Advance(0, false)) == SelfWaking(Done, 1)
  {
  }

  /** A wakeup closure that captures an Arc of its own player: the user drops the player, and
      the core lives on. */
  lemma CycleLeaksCore() returns (ls: seq<Label>)
    ensures Legal(Init(), ls) && Ended(Exec(Init(), ls)) && Exec(Init(), ls).sh.terminations == 0
  {
    MakeSelfWaking();
    LetGoOfSelfWaking();
    hide Apply, Enabled;
    var none: seq<Label> := [];
    Prepend(SelfWaking(Handle(Dropping, false), 2), Advance(0, false), none);
    ls := [Advance(0, false)] + none;
    Prepend(SelfWaking(Handle(Held, false), 2), DropHandle(0, false), ls);
    ls := [DropHandle(0, false)] + ls;
    Prepend(Apply(Init(), Build(true)), SetWakeup(false, true), ls);
    ls := [SetWakeup(false, true)] + ls;
    Prepend(Init(), Build(true), ls);
    ls := [Build(true)] + ls;
  }

  /** The same player, whose wakeup callback is cleared first: the closure is freed, the Arc it
      captured is dropped, and the user's handle is the only one left. */
  lemma ClearReleasesCapture() returns (ls: seq<Label>)
    ensures var w := SelfWaking(Handle(Held, false), 2);
            && Legal(w, ls) && ls != [] && ls[0] == SetWakeup(true, false)
            && var t := Exec(w, ls);
               t.sh.strong == 1 && t.sh.wakeup.None? && t.frees == [1] && AtRest(t)
               && t.objs != [] && IsHeld(t.objs[0])
  {
    ClearStep();
    ClearedSteps();
    hide Apply, Enabled;
    var none: seq<Label> := [];
    Prepend(CLEARED, Advance(1, false), [Advance(2, false)] + none) by { Prepend(FREED, Advance(2, false), none); }
    ls := [Advance(1, false)] + ([Advance(2, false)] + none);
    Prepend(SelfWaking(Handle(Held, false), 2), SetWakeup(true, false), ls);
    ls := [SetWakeup(true, false)] + ls;
    Prepend(FREED, Advance(2, false), none);
  }

  const CLEARED := World(Shared(false, 2, 0, None, [], {}, {}, false), [0], [true],
                         [Handle(Held, false), Releasing(0, false)])
  const FREED := World(Shared(false, 2, 0, None, [], {}, {}, false), [1], [true],
                       [Handle(Held, false), Done, Handle(Dropping, false)])
  const RELEASED := World(Shared(false, 1, 0, None, [], {}, {}, false), [1], [true],
                          [Handle(Held, false), Done, Done])

  lemma ClearStep()
    ensures var w := SelfWaking(Handle(Held, false), 2);
            Enabled(w, SetWakeup(true, false)) && Apply(w, SetWakeup(true, false)) == CLEARED
  {
    assert IsOwner(SelfWaking(Handle(Held, false), 2).objs[0]);
  }

  lemma ClearedSteps()
    ensures Enabled(CLEARED, Advance(1, false)) && Apply(CLEARED, Advance(1, false)) == FREED
    ensures Enabled(FREED, Advance(2, false)) && Apply(FREED, Advance(2, false)) == RELEASED
  {
  }

  // ----- the builder chain -----

  /** A call or step that does not set the wakeup callback keeps the registered closure, through
      `build`, until the handle has been terminated. */
  lemma WakeupKept(w: World, l: Label, b: BoxId)
    requires Inv(w) && Enabled(w, l) && !l.SetWakeup? && w.sh.wakeup == Some(b)
    ensures Apply(w, l).sh.wakeup == Some(b) || w.sh.terminations == 1
  {
    if l.Advance? { assert ObjAt(w.sh, |w.frees|, w.objs[l.i]); }
  }

  /** A closure registered on the Builder stays registered and unfreed on the Mpv that
      `build` returns, and is released only after termination, in every run that does not
      replace or clear it. */
  lemma {:induction false} WakeupCarriedOver(w: World, ls: seq<Label>, b: BoxId)
    requires Inv(w) && w.sh.wakeup == Some(b) && Legal(w, ls)
    requires forall k :: 0 <= k < |ls| ==> !ls[k].SetWakeup?
    ensures var t := Exec(w, ls); t.sh.terminations == 1 || (t.sh.wakeup == Some(b) && Frees(t, b) == 0)
    decreases |ls|
  {
    if ls == [] {
      assert BoxAt(w, b);
    } else {
      InvKept(w, ls[0]);
      WakeupKept(w, ls[0], b);
      if Apply(w, ls[0]).sh.wakeup == Some(b) {
        WakeupCarriedOver(Apply(w, ls[0]), ls[1..], b);
      } else {
        StaysTerminated(w, ls);
      }
    }
  }

  lemma {:induction false} StaysTerminated(w: World, ls: seq<Label>)
    requires Inv(w) && Legal(w, ls) && w.sh.terminations == 1
    ensures Exec(w, ls).sh.terminations == 1
    decreases |ls|
  {
    if ls != [] {
      InvKept(w, ls[0]);
      TerminationsOnlyGrow(w, ls[0]);
      StaysTerminated(Apply(w, ls[0]), ls[1..]);
    }
  }

  lemma TerminationsOnlyGrow(w: World, l: Label)
    requires Inv(w) && Enabled(w, l) && w.sh.terminations == 1
    ensures Apply(w, l).sh.terminations == 1
  {
    InvKept(w, l);
    if l.Advance? { CountFollows(w.sh, w.objs[l.i], l.flag); }
  }
}
