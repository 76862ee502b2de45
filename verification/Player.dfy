/**
 * The player, its Arc count, its registries and its render contexts in the source's own
 * form: objects whose fields the calls and destructors update in place, in the source's
 * order.  Beside the real fields runs the step system of OwnershipSteps; after every
 * update one of its steps is taken and must lead to the same state, so an update made
 * out of order would not verify.  Each method here is one thread by itself.
 */
module Players {
  import opened Common
  import opened OwnershipSteps
  import opened OwnershipInvariant
  import opened OwnershipTheorems
  import opened NodeModel

  /** World m is what the run r leads to. */
  ghost predicate Recorded(m: World, r: seq<Label>) {
    Inv(m) && Legal(Init(), r) && Exec(Init(), r) == m
  }

  lemma Record(m: World, r: seq<Label>, l: Label)
    requires Recorded(m, r) && Enabled(m, l)
    ensures Recorded(Apply(m, l), r + [l])
  {
    InvKept(m, l);
    RunAppend(Init(), r, [l]);
  }

  /** Whatever the slot or the registry owns has been created. */
  lemma OwnedIsCreated(m: World, r: seq<Label>)
    requires Recorded(m, r)
    ensures m.sh.wakeup.Some? ==> m.sh.wakeup.value < |m.frees|
    ensures forall b :: b in m.sh.registry ==> b < |m.frees|
  {
    if m.sh.wakeup.Some? { assert BoxAt(m, m.sh.wakeup.value); }
  }

  /** Whatever an object owns has been created. */
  lemma HeldIsCreated(m: World, r: seq<Label>, i: nat, b: BoxId)
    requires Recorded(m, r) && i < |m.objs| && Owned(m.objs[i], b) > 0
    ensures b < |m.frees|
  {
    assert BoxAt(m, b);
    SumUpdate(m.objs, i, m.objs[i], Boxes(b));
  }

  /** An object with a strong reference: the count includes it, and no drop of the core has begun. */
  lemma ArcIsCounted(m: World, r: seq<Label>, i: nat)
    requires Recorded(m, r) && i < |m.objs| && HoldsArc(m.objs[i])
    ensures m.sh.strong >= 1 && !m.sh.building && m.sh.terminations == 0
  {
    SumUpdate(m.objs, i, m.objs[i], Arcs);
  }

  /** Two objects with strong references. */
  lemma TwoArcsCounted(m: World, r: seq<Label>, i: nat, k: nat)
    requires Recorded(m, r) && i < |m.objs| && k < |m.objs| && i != k && HoldsArc(m.objs[i]) && HoldsArc(m.objs[k])
    ensures m.sh.strong >= 2
  {
    SumTwo(m.objs, i, k, Arcs);
  }

  /** Without a strong reference, no closure that is still there holds one: so it is in a
      Builder, and from the moment on when the drop of the core has begun. */
  lemma NoArcInside(m: World, r: seq<Label>, b: BoxId)
    requires Recorded(m, r) && m.sh.strong == 0 && b < |m.frees| && m.frees[b] == 0
    ensures b < |m.holds| && !m.holds[b]
  {
    if m.holds[b] {
      HeldSome(m.holds, m.frees, b);
      assert false;
    }
  }

  /** What a step frees is there to be freed; what the slot and the registry own has not been. */
  lemma StoredIsThere(m: World, r: seq<Label>)
    requires Recorded(m, r)
    ensures |m.holds| == |m.frees|
    ensures m.sh.wakeup.Some? ==> m.sh.wakeup.value < |m.frees| && m.frees[m.sh.wakeup.value] == 0
    ensures forall b :: b in m.sh.registry ==> b < |m.frees| && m.frees[b] == 0
  {
    if m.sh.wakeup.Some? { StoredIsLive(m, m.sh.wakeup.value); }
    forall b | b in m.sh.registry ensures b < |m.frees| && m.frees[b] == 0 { StoredIsLive(m, b); }
  }

  /** In the drop of the core no closure holds an Arc any more. */
  lemma CoreFreesNoArc(m: World, r: seq<Label>, i: nat)
    requires Recorded(m, r) && i < |m.objs| && m.objs[i].Core?
    ensures m.sh.wakeup.Some? ==> m.sh.wakeup.value < |m.frees| == |m.holds| && !m.holds[m.sh.wakeup.value]
    ensures forall b :: b in m.sh.registry ==> b < |m.frees| == |m.holds| && !m.holds[b]
  {
    StoredIsThere(m, r);
    assert ObjAt(m.sh, |m.frees|, m.objs[i]);
    if m.sh.wakeup.Some? { NoArcInside(m, r, m.sh.wakeup.value); }
    forall b | b in m.sh.registry ensures !m.holds[b] { NoArcInside(m, r, b); }
  }

  /** The free counts after box b, if any, has been freed once more. */
  function AfterFree(was: seq<int>, b: Option<BoxId>): (r: seq<int>)
    ensures |r| == |was|
  {
    if b.Some? && b.value < |was| then was[b.value := was[b.value] + 1] else was
  }

  function InsideOf(holds: seq<bool>, closure: Option<BoxId>): nat {
    Bit(closure.Some? && closure.value < |holds| && holds[closure.value])
  }

  lemma InsideAppend(holds: seq<bool>, arc: bool, closure: Option<BoxId>)
    requires closure.Some? ==> closure.value < |holds|
    ensures InsideOf(holds + [arc], closure) == InsideOf(holds, closure)
  {
  }

  lemma AfterFreeAppend(was: seq<int>, b: Option<BoxId>, x: int)
    requires b.Some? ==> b.value < |was|
    ensures AfterFree(was + [x], b) == AfterFree(was, b) + [x]
  {
  }

  /** A point at which an object other than the core may free box b, and does nothing else. */
  predicate FreesHere(m: World, i: nat, b: Option<BoxId>, u: bool) {
    && i < |m.objs| && Moves(m.objs[i]) && !m.objs[i].Core? && !DropsArc(m.objs[i])
    && FreedAt(m.sh, m.objs[i]) == b && m.objs[i].unwinding == u
    && (m.objs[i].Registration? ==> m.objs[i].rpc.RFree?)
    && (m.objs[i].Context? ==> m.objs[i].cpc.CDropUpdate? || m.objs[i].cpc.CFreeGpa?)
  }

  lemma FreesWhatIsThere(m: World, r: seq<Label>, i: nat, b: Option<BoxId>, u: bool)
    requires Recorded(m, r) && FreesHere(m, i, b, u)
    ensures b.Some? ==> b.value < |m.frees|
  {
    if b.Some? { FreedIsLive(m, i, b.value); }
  }

  lemma FreeStep(m: World, i: nat, b: Option<BoxId>, u: bool, flag: bool)
    requires FreesHere(m, i, b, u) && !(flag && b.Some? && u)
    ensures var arc := b.Some? && b.value < |m.holds| && m.holds[b.value];
            AdvanceBy(m, i, flag)
            == World(m.sh, CountFree(m.frees, b), m.holds,
                     m.objs[i := Next(m.sh, m.objs[i], flag)] + (if arc then [Handle(Dropping, u || flag)] else []))
  {
  }

  lemma AbortStep(m: World, i: nat, b: Option<BoxId>, u: bool)
    requires FreesHere(m, i, b, u) && b.Some? && u
    ensures AdvanceBy(m, i, true) == m.(sh := m.sh.(aborted := true))
  {
  }

  /** A step of the core's drop that neither aborts nor frees an Arc. */
  lemma CoreStep(m: World, i: nat, flag: bool)
    requires !m.sh.aborted && i < |m.objs| && m.objs[i].Core? && !FreesArc(m, m.objs[i])
    requires !(flag && FreedAt(m.sh, m.objs[i]).Some? && m.objs[i].unwinding)
    ensures Enabled(m, Advance(i, flag))
    ensures Apply(m, Advance(i, flag))
            == World(Effect(m.sh, m.objs[i], flag), CountFree(m.frees, FreedAt(m.sh, m.objs[i])), m.holds,
                     m.objs[i := Next(m.sh, m.objs[i], flag)])
  {
  }

  /** Its drop of the wakeup closure. */
  lemma WakeupStep(m: World, i: nat, u: bool, flag: bool)
    requires !m.sh.aborted && i < |m.objs| && m.objs[i] == Core(MDropWakeup, u) && !(flag && u)
    requires var b := m.sh.wakeup; if b.Some? then b.value < |m.frees| == |m.holds| && !m.holds[b.value] else !flag
    ensures Enabled(m, Advance(i, flag))
    ensures Apply(m, Advance(i, flag))
            == World(m.sh.(wakeup := None), AfterFree(m.frees, m.sh.wakeup), m.holds,
                     m.objs[i := Core(MFreeProtocols, u || flag)])
  {
    CoreStep(m, i, flag);
  }

  /** Its drop of the first box in the registry. */
  lemma ProtocolStep(m: World, i: nat, u: bool, b: BoxId, flag: bool)
    requires !m.sh.aborted && i < |m.objs| && m.objs[i] == Core(MFreeProtocols, u) && !(flag && u)
    requires m.sh.registry != [] && m.sh.registry[0] == b < |m.frees| == |m.holds| && !m.holds[b]
    ensures Enabled(m, Advance(i, flag))
    ensures Apply(m, Advance(i, flag))
            == World(m.sh.(registry := m.sh.registry[1..]), m.frees[b := m.frees[b] + 1], m.holds,
                     m.objs[i := Core(MFreeProtocols, u || flag)])
  {
    CoreStep(m, i, flag);
  }

  /** A panic in the core's drop while unwinding. */
  lemma CoreAbort(m: World, i: nat)
    requires !m.sh.aborted && i < |m.objs| && m.objs[i].Core? && m.objs[i].unwinding
    requires FreedAt(m.sh, m.objs[i]).Some?
    ensures Enabled(m, Advance(i, true)) && Apply(m, Advance(i, true)) == m.(sh := m.sh.(aborted := true))
  {
  }

  class Player {
    var building: bool
    var strong: int
    var terminations: int
    var wakeup: Option<BoxId>
    var protocols: seq<BoxId>
    var table: set<BoxId>
    var leaked: set<BoxId>
    var aborted: bool
    var frees: seq<int>
    /** The closures that captured an Arc of this player. */
    var holds: seq<bool>
    /** The user closures whose destructors panic. */
    const panics: BoxId -> bool
    /** The callbacks that a dispatch is still running when their slot gives up its handle:
        that dispatch frees them when it returns. */
    const late: BoxId -> bool
    ghost var model: World
    ghost var run: seq<Label>

    ghost predicate Matches(m: World)
      reads this
    {
      && m.sh == Shared(building, strong, terminations, wakeup, protocols, table, leaked, aborted)
      && m.frees == frees && m.holds == holds
    }

    ghost predicate Valid()
      reads this
    {
      Matches(model) && Recorded(model, run)
    }

    /** Mpv::builder, after a successful mpv_create. */
    constructor (panics: BoxId -> bool, late: BoxId -> bool)
      ensures Valid() && model == Init() && this.panics == panics && this.late == late
    {
      building, strong, terminations, wakeup, protocols := true, 0, 0, None, [];
      table, leaked, aborted, frees, holds := {}, {}, false, [], [];
      this.panics, this.late := panics, late;
      model, run := Init(), [];
      new;
      InitInv();
    }

    /** One step of the step system, which must agree with the fields as they are now. */
    ghost method Move(l: Label)
      requires Recorded(model, run) && Enabled(model, l) && Matches(Apply(model, l))
      modifies `model, `run
      ensures Valid() && model == Apply(old(model), l)
    {
      Record(model, run, l);
      model, run := Apply(model, l), run + [l];
    }

    // ----- boxes -----

    /** Strong references inside a closure. */
    function Inside(closure: Option<BoxId>): nat
      reads this
    {
      InsideOf(holds, closure)
    }

    /** A closure with its captures, in a box of its own: EscapedBox::new, or Arc::new. */
    method NewBox(arc: bool) returns (b: BoxId)
      modifies `frees, `holds, `strong
      ensures b == |old(frees)| && frees == old(frees) + [0] && holds == old(holds) + [arc]
      ensures strong == old(strong) + Bit(arc) && (|old(holds)| == b ==> Inside(Some(b)) == Bit(arc))
    {
      b := |frees|;
      frees := frees + [0];
      holds := holds + [arc];
      if arc {
        strong := strong + 1;
      }
    }

    /** EscapedBox's Drop, or the drop of a closure: the destructor may panic, and a second
        panic while unwinding ends the run. */
    method FreeBox(b: BoxId, unwinding: bool) returns (u: bool)
      requires b < |frees| && !aborted
      modifies `frees, `aborted
      ensures aborted == (panics(b) && unwinding) && u == (unwinding || panics(b))
      ensures frees == if aborted then old(frees) else old(frees)[b := old(frees)[b] + 1]
    {
      if panics(b) && unwinding {
        aborted := true;
      } else {
        frees := frees[b := frees[b] + 1];
      }
      u := unwinding || panics(b);
    }

    /** What a slot's giving up its handle on `closure` frees there and then ... */
    function Now(closure: Option<BoxId>): Option<BoxId> {
      if closure.Some? && late(closure.value) then None else closure
    }

    /** ... and what it leaves in flight otherwise. */
    function Pending(closure: Option<BoxId>): seq<Obj> {
      if closure.Some? && late(closure.value) then [Releasing(closure.value, false)] else []
    }

    /** It is in flight, among the objects that came after m. */
    ghost predicate Kept(m: World, closure: Option<BoxId>)
      reads this
    {
      Pending(closure) != [] ==> |m.objs| < |model.objs| && [model.objs[|m.objs|]] == Pending(closure)
    }

    /** The destructor of the closure, if there is one, panics. */
    predicate Panics(closure: Option<BoxId>) {
      closure.Some? && panics(closure.value)
    }

    /** Some destructor of these panics. */
    predicate SomePanic(boxes: seq<BoxId>) {
      exists b :: b in boxes && panics(b)
    }

    /** The end of the core panics: with no reference left, and what it frees. */
    predicate EndPanics(left: int, closure: Option<BoxId>, boxes: seq<BoxId>) {
      left == 0 && (Panics(Now(closure)) || SomePanic(boxes))
    }

    // ----- the end of the core -----

    /** Drop of an Mpv or a Builder: unregister and take the wakeup closure, terminate,
        drop the closure, then the field `protocols`, box by box. */
    method DropCore(ghost i: nat, unwinding: bool) returns (u: bool)
      requires Valid() && !aborted && i < |model.objs| && model.objs[i] == Core(MUnregister, unwinding)
      modifies `terminations, `wakeup, `protocols, `frees, `aborted, `model, `run
      ensures Valid() && terminations == old(terminations) + 1
      ensures !aborted ==> model.objs == old(model.objs)[i := Done] + Pending(old(wakeup))
      ensures !aborted ==> CoreFreed(old(frees), old(wakeup), old(protocols))
      ensures u == (aborted || unwinding || EndPanics(0, old(wakeup), old(protocols)))
    {
      hide Recorded, SomePanic;
      u := unwinding;
      Terminate(i, u);
      u := DropWakeup(i, u);
      if !aborted {
        u := DropProtocols(i, u);
      }
    }

    /** The Drop body up to mpv_terminate_destroy. */
    method Terminate(ghost i: nat, ghost u: bool)
      requires Valid() && !aborted && i < |model.objs| && model.objs[i] == Core(MUnregister, u)
      modifies `terminations, `model, `run
      ensures Valid() && terminations == old(terminations) + 1
      ensures model.objs == old(model.objs)[i := Core(MDropWakeup, u)]
    {
      hide Recorded, Apply, Enabled;
      CoreStep(model, i, false);
      Move(Advance(i, false));
      CoreStep(model, i, false);
      Move(Advance(i, false));
      terminations := terminations + 1;
      CoreStep(model, i, false);
      Move(Advance(i, false));
    }

    /** Drop of the handle on the wakeup closure that was taken out of its slot. */
    method DropWakeup(ghost i: nat, unwinding: bool) returns (u: bool)
      requires Valid() && !aborted && i < |model.objs| && model.objs[i] == Core(MDropWakeup, unwinding)
      modifies `wakeup, `frees, `aborted, `model, `run
      ensures Valid()
      ensures !aborted ==> wakeup == None && (old(wakeup).Some? ==> old(wakeup).value < |old(frees)|)
      ensures !aborted ==> model.objs == old(model.objs)[i := Core(MFreeProtocols, u)] + Pending(old(wakeup))
      ensures !aborted ==> frees == AfterFree(old(frees), Now(old(wakeup)))
      ensures u == (unwinding || Panics(Now(old(wakeup)))) && (aborted ==> u) && protocols == old(protocols)
    {
      hide Recorded, AfterFree;
      LeaveWakeup(i, unwinding);
      u := FreeWakeup(i, unwinding);
    }

    /** A dispatch still holds the closure: it is the dispatch's from now on. */
    method LeaveWakeup(ghost i: nat, ghost u: bool)
      requires Valid() && !aborted && i < |model.objs| && model.objs[i] == Core(MDropWakeup, u)
      modifies `wakeup, `model, `run
      ensures Valid() && model.objs == old(model.objs) + Pending(old(wakeup)) && wakeup == Now(old(wakeup))
      ensures old(wakeup).Some? ==> old(wakeup).value < |frees|
    {
      hide Recorded;
      StoredIsThere(model, run);
      if wakeup.Some? && late(wakeup.value) {
        wakeup := None;
        Move(LateWakeup(i));
      }
    }

    /** Nobody else holds it. */
    method FreeWakeup(ghost i: nat, unwinding: bool) returns (u: bool)
      requires Valid() && !aborted && i < |model.objs| && model.objs[i] == Core(MDropWakeup, unwinding)
      modifies `wakeup, `frees, `aborted, `model, `run
      ensures Valid()
      ensures !aborted ==> wakeup == None && model.objs == old(model.objs)[i := Core(MFreeProtocols, u)]
      ensures !aborted ==> frees == AfterFree(old(frees), old(wakeup))
      ensures u == (unwinding || Panics(old(wakeup))) && (aborted ==> u)
    {
      hide Recorded, Apply, Enabled, FreedAt, Effect, Next, CountFree;
      CoreFreesNoArc(model, run, i);
      ghost var panicked := wakeup.Some? && panics(wakeup.value);
      FreedAtWakeup(model, i, unwinding);
      if panicked && unwinding { CoreAbort(model, i); } else { WakeupStep(model, i, unwinding, panicked); }
      u := unwinding;
      if wakeup.Some? {
        u := FreeBox(wakeup.value, u);
      }
      if !aborted {
        wakeup := None;
      }
      Move(Advance(i, panicked));
    }

    lemma FreedAtWakeup(m: World, i: nat, u: bool)
      requires i < |m.objs| && m.objs[i] == Core(MDropWakeup, u)
      ensures FreedAt(m.sh, m.objs[i]) == m.sh.wakeup
    {
    }

    /** Drop of the first box that is still in the registry. */
    method DropProtocol(ghost i: nat, unwinding: bool) returns (u: bool)
      requires Valid() && !aborted && i < |model.objs| && model.objs[i] == Core(MFreeProtocols, unwinding)
      requires protocols != []
      modifies `protocols, `frees, `aborted, `model, `run
      ensures Valid() && (aborted ==> protocols == old(protocols))
      ensures !aborted ==> protocols == old(protocols)[1..]
      ensures !aborted ==> model.objs == old(model.objs)[i := Core(MFreeProtocols, u)]
      ensures old(protocols)[0] < |old(frees)|
      ensures !aborted ==> frees == AfterFree(old(frees), Some(old(protocols)[0]))
      ensures u == (unwinding || panics(old(protocols)[0])) && (aborted ==> u)
    {
      hide Recorded, Apply, Enabled, FreedAt, Effect, Next, CountFree;
      CoreFreesNoArc(model, run, i);
      FreedAtProtocols(model, i, unwinding);
      var b := protocols[0];
      assert b in model.sh.registry;
      if panics(b) && unwinding { CoreAbort(model, i); } else { ProtocolStep(model, i, unwinding, b, panics(b)); }
      u := FreeBox(b, unwinding);
      if !aborted {
        protocols := protocols[1..];
      }
      Move(Advance(i, panics(b)));
    }

    lemma FreedAtProtocols(m: World, i: nat, u: bool)
      requires i < |m.objs| && m.objs[i] == Core(MFreeProtocols, u) && m.sh.registry != []
      ensures FreedAt(m.sh, m.objs[i]) == Some(m.sh.registry[0])
    {
    }

    /** The Vec's drop: the remaining boxes are freed even when one destructor panics. */
    method DropProtocols(ghost i: nat, unwinding: bool) returns (u: bool)
      requires Valid() && !aborted && i < |model.objs| && model.objs[i] == Core(MFreeProtocols, unwinding)
      modifies `protocols, `frees, `aborted, `model, `run
      ensures Valid()
      ensures !aborted ==> protocols == [] && model.objs == old(model.objs)[i := Done]
      ensures !aborted ==> |frees| == |old(frees)| && forall b :: 0 <= b < |frees| ==>
        frees[b] == old(frees)[b] + Occurs(old(protocols), b)
      ensures (aborted ==> u) && (!aborted ==> u == (unwinding || SomePanic(old(protocols))))
    {
      hide Recorded, Apply, Enabled;
      u := unwinding;
      while protocols != [] && !aborted
        invariant Valid() && (aborted || |frees| == |old(frees)|)
        invariant aborted || model.objs == old(model.objs)[i := Core(MFreeProtocols, u)]
        invariant aborted || forall b :: 0 <= b < |frees| ==>
          frees[b] + Occurs(protocols, b) == old(frees)[b] + Occurs(old(protocols), b)
        invariant aborted ==> u
        invariant !aborted ==> (u || SomePanic(protocols)) == (unwinding || SomePanic(old(protocols)))
        decreases |protocols| + 1 - Bit(aborted)
      {
        SomePanicFirst(protocols);
        u := DropProtocol(i, u);
      }
      if !aborted {
        CoreStep(model, i, false);
        Move(Advance(i, false));
      }
    }

    lemma SomePanicFirst(boxes: seq<BoxId>)
      requires boxes != []
      ensures SomePanic(boxes) <==> panics(boxes[0]) || SomePanic(boxes[1..])
    {
      if SomePanic(boxes[1..]) {
        var b :| b in boxes[1..] && panics(b);
        assert b in boxes;
      }
      assert boxes[0] in boxes;
    }

    /** Drop of one Arc<Mpv>; the last one drops the Mpv. */
    method DropArc(ghost i: nat, unwinding: bool) returns (u: bool)
      requires Valid() && !aborted && i < |model.objs|
      requires DropsArc(model.objs[i]) && model.objs[i].unwinding == unwinding
      modifies `strong, `terminations, `wakeup, `protocols, `frees, `aborted, `model, `run
      ensures Valid() && strong == old(strong) - 1
      ensures strong >= 0 && terminations == Bit(strong == 0)
      ensures strong > 0 ==> model.sh == old(model.sh).(strong := strong) && frees == old(frees) && !aborted
      ensures strong == 0 && !aborted ==> CoreFreed(old(frees), old(wakeup), old(protocols))
      ensures u == (aborted || unwinding || EndPanics(strong, old(wakeup), old(protocols)))
      ensures !aborted ==> |model.objs| >= |old(model.objs)|
      ensures !aborted ==> forall k :: 0 <= k < |old(model.objs)| && k != i ==> model.objs[k] == old(model.objs)[k]
      ensures !aborted ==> model.objs[i] == Next(old(model.sh), old(model.objs)[i], false)
    {
      hide Recorded;
      u := unwinding;
      ArcIsCounted(model, run, i);
      ghost var j := |model.objs|;
      strong := strong - 1;
      Move(Advance(i, false));
      if strong == 0 {
        u := DropCore(j, u);
      }
    }

    // ----- the builder chain -----

    /** Builder::set_property; a failure drops the Builder. */
    method SetProperty(ok: bool)
      requires Valid() && building && !aborted
      modifies this
      ensures Valid() && building == ok
      ensures ok ==> model == old(model)
      ensures !ok ==> terminations == 1 && (!aborted ==> CoreFreed(old(frees), old(wakeup), []))
    {
      if !ok { DropBuilder(BuilderSet(false)); }
    }

    /** Builder::build: the handle, with its wakeup slot, moves into the Mpv, or the Builder's
        own Drop ends it. */
    method Build(ok: bool) returns (ghost i: nat)
      requires Valid() && building && !aborted
      modifies this
      ensures Valid() && !building
      ensures ok ==> strong == 1 && terminations == 0 && wakeup == old(wakeup) && protocols == [] && frees == old(frees)
      ensures ok ==> i == |old(model.objs)| && model.objs == old(model.objs) + [Handle(Held, false)] && !aborted
      ensures !ok ==> terminations == 1 && (!aborted ==> CoreFreed(old(frees), old(wakeup), []))
    {
      hide Recorded;
      i := |model.objs|;
      NothingRegistered();
      if ok {
        building, strong := false, 1;
        Move(OwnershipSteps.Build(true));
      } else {
        DropBuilder(OwnershipSteps.Build(false));
      }
    }

    lemma NothingRegistered()
      requires Valid() && building
      ensures terminations == 0 && strong == 0 && protocols == []
    {
    }

    method DropBuilder(ghost l: Label)
      requires Valid() && building && !aborted
      requires l == BuilderSet(false) || l == OwnershipSteps.Build(false) || l == Label.DropBuilder
      modifies this
      ensures Valid() && !building && terminations == 1
      ensures !aborted ==> CoreFreed(old(frees), old(wakeup), [])
    {
      hide Recorded;
      NothingRegistered();
      ghost var i := |model.objs|;
      building := false;
      Move(l);
      var u := DropCore(i, false);
    }

    // ----- calls on the player -----

    /** Arc::clone. */
    method Clone(ghost i: nat) returns (ghost j: nat)
      requires Valid() && !aborted && i < |model.objs| && IsOwner(model.objs[i])
      modifies `strong, `model, `run
      ensures Valid() && strong == old(strong) + 1
      ensures j == |old(model.objs)| && model.objs == old(model.objs) + [Handle(Held, false)]
    {
      hide Recorded;
      j := |model.objs|;
      strong := strong + 1;
      Move(Label.Clone(i));
    }

    /** Drop of an Arc<Mpv>. */
    method DropHandle(ghost i: nat, unwinding: bool) returns (u: bool)
      requires Valid() && !aborted && i < |model.objs| && IsHeld(model.objs[i]) && MayGive(model, i)
      modifies this
      ensures Valid() && strong == old(strong) - 1
      ensures strong > 0 ==> terminations == 0 && frees == old(frees)
      ensures strong == 0 ==> terminations == 1
      ensures strong == 0 && !aborted ==> CoreFreed(old(frees), old(wakeup), old(protocols))
      ensures u == (aborted || unwinding || EndPanics(strong, old(wakeup), old(protocols)))
    {
      hide Recorded;
      Move(Label.DropHandle(i, unwinding));
      u := DropArc(i, unwinding);
    }

    /** What the core owned is freed, once for each time it was owned, and is owned no more. */
    predicate CoreFreed(was: seq<int>, closure: Option<BoxId>, boxes: seq<BoxId>)
      reads this
    {
      && wakeup == None && protocols == [] && |frees| == |was|
      && forall b :: 0 <= b < |frees| ==> frees[b] == was[b] + Bit(Now(closure) == Some(b)) + Occurs(boxes, b)
    }

    /** Free box b, which object i has come to; the Arc inside it is left to be dropped. */
    method FreeAt(ghost i: nat, b: Option<BoxId>, unwinding: bool) returns (u: bool)
      requires Valid() && !aborted && FreesHere(model, i, b, unwinding)
      modifies `frees, `aborted, `model, `run
      ensures Valid() && (b.Some? ==> b.value < |old(frees)|)
      ensures aborted == (unwinding && b.Some? && panics(b.value))
      ensures u == (unwinding || (b.Some? && panics(b.value)))
      ensures !aborted ==> model.sh == old(model.sh) && frees == AfterFree(old(frees), b) && i < |old(model.objs)|
      ensures !aborted ==>
        model.objs == old(model.objs)[i := Next(old(model.sh), old(model.objs)[i], b.Some? && panics(b.value))]
                      + (if Inside(b) == 1 then [Handle(Dropping, u)] else [])
    {
      hide Recorded, FreesHere, AdvanceBy, Next;
      ghost var flag := b.Some? && panics(b.value);
      FreesWhatIsThere(model, run, i, b, unwinding);
      if flag && unwinding { AbortStep(model, i, b, unwinding); } else { FreeStep(model, i, b, unwinding, flag); }
      u := unwinding;
      if b.Some? {
        u := FreeBox(b.value, unwinding);
      }
      FreesHereMoves(model, i, b, unwinding);
      Move(Advance(i, flag));
    }

    lemma FreesHereMoves(m: World, i: nat, b: Option<BoxId>, u: bool)
      requires FreesHere(m, i, b, u)
      ensures i < |m.objs| && Moves(m.objs[i])
    {
    }

    /** Drop of the Arc that a freed closure had captured, while object `other` has another. */
    method DropCaptured(ghost k: nat, ghost other: nat, arc: bool, ghost u: bool)
      requires Valid() && !aborted
      requires arc ==> k < |model.objs| && model.objs[k] == Handle(Dropping, u)
      requires arc ==> other < |model.objs| && other != k && HoldsArc(model.objs[other])
      modifies `strong, `model, `run
      ensures Valid() && strong == old(strong) - Bit(arc) && model.sh == old(model.sh).(strong := strong)
      ensures model.objs == if arc then old(model.objs)[k := Done] else old(model.objs)
    {
      if arc {
        TwoArcsCounted(model, run, k, other);
        hide Recorded;
        strong := strong - 1;
        Move(Advance(k, false));
      }
    }

    /** Drop box b, which object i has come to, and the Arc inside it, while object `other` has
        another. */
    method DropAt(ghost i: nat, ghost other: nat, b: Option<BoxId>, unwinding: bool) returns (u: bool)
      requires Valid() && !aborted && FreesHere(model, i, b, unwinding)
      requires Inside(b) == 1 ==> other < |model.objs| && HoldsArc(model.objs[other])
      requires Inside(b) == 1 && other == i ==> model.objs[i].Context? || model.objs[i].Failed?
      modifies `frees, `aborted, `strong, `model, `run
      ensures Valid() && (b.Some? ==> b.value < |old(frees)|)
      ensures u == (unwinding || (b.Some? && panics(b.value))) && aborted == (unwinding && b.Some? && panics(b.value))
      ensures !aborted ==> strong == old(strong) - Inside(b) && model.sh == old(model.sh).(strong := strong)
      ensures !aborted ==> frees == AfterFree(old(frees), b) && i < |old(model.objs)| <= |model.objs|
      ensures !aborted ==> model.objs[i] == Next(old(model.sh), old(model.objs)[i], b.Some? && panics(b.value))
      ensures !aborted ==> forall k :: 0 <= k < |old(model.objs)| && k != i ==> model.objs[k] == old(model.objs)[k]
    {
      hide Recorded, FreesHere, Next, AfterFree;
      ghost var k := |model.objs|;
      StillHolds(model, i, b, unwinding, b.Some? && panics(b.value));
      u := FreeAt(i, b, unwinding);
      if !aborted {
        DropCaptured(k, other, b.Some? && b.value < |holds| && holds[b.value], u);
      }
    }

    /** A context, or one that could not be created, keeps its own Arc to the last. */
    lemma StillHolds(m: World, i: nat, b: Option<BoxId>, u: bool, flag: bool)
      requires FreesHere(m, i, b, u)
      ensures i < |m.objs|
      ensures m.objs[i].Context? || m.objs[i].Failed? ==> HoldsArc(Next(m.sh, m.objs[i], flag))
    {
    }

    /** Drop of a slot's handle on a closure that was replaced or cleared, after the slot's
        locks were left: the closure goes too, unless a dispatch still holds it. */
    method Release(ghost j: nat, ghost other: nat, previous: Option<BoxId>) returns (u: bool)
      requires Valid() && !aborted
      requires previous.Some? ==> j < |model.objs| && model.objs[j] == Releasing(previous.value, false)
      requires Inside(previous) == 1 ==> other < |model.objs| && HoldsArc(model.objs[other])
      modifies `frees, `aborted, `strong, `model, `run
      ensures Valid() && !aborted && strong == old(strong) - Inside(Now(previous))
      ensures model.sh == old(model.sh).(strong := strong) && frees == AfterFree(old(frees), Now(previous))
      ensures u == Panics(Now(previous))
      ensures |model.objs| >= |old(model.objs)|
      ensures forall k :: 0 <= k < |old(model.objs)| && (k != j || Pending(previous) != []) ==>
        model.objs[k] == old(model.objs)[k]
    {
      u := false;
      if previous.Some? && !late(previous.value) {
        u := DropAt(j, other, previous, false);
      }
    }

    /** The end of a dispatch that still held the closure: it goes, and so does the Arc it had
        captured, which may be the last one. */
    method DropClosure(ghost j: nat, b: BoxId) returns (u: bool)
      requires Valid() && !aborted && j < |model.objs| && model.objs[j] == Releasing(b, false)
      modifies this
      ensures Valid() && b < |old(frees)| && strong == old(strong) - Inside(Some(b))
      ensures Inside(Some(b)) == 0 || strong > 0 ==>
        !aborted && frees == AfterFree(old(frees), Some(b)) && model.sh == old(model.sh).(strong := strong)
      ensures Inside(Some(b)) == 1 && strong == 0 ==> terminations == 1
      ensures Inside(Some(b)) == 1 && strong == 0 && !aborted ==>
        CoreFreed(AfterFree(old(frees), Some(b)), old(wakeup), old(protocols))
      ensures u == (aborted || panics(b)
                    || (Inside(Some(b)) == 1 && EndPanics(strong, old(wakeup), old(protocols))))
    {
      hide Recorded, CoreFreed, AfterFree;
      ghost var k := |model.objs|;
      u := FreeAt(j, Some(b), false);
      if b < |holds| && holds[b] {
        u := DropArc(k, u);
      }
    }

    /** set_wakeup_callback, on the Builder or through any owner i of the Mpv. */
    method SetWakeup(ghost i: nat, arc: bool) returns (b: BoxId, u: bool)
      requires Valid() && !aborted && ((building && !arc) || (i < |model.objs| && IsOwner(model.objs[i])))
      modifies this
      ensures Valid() && !aborted && strong == old(strong) + Bit(arc) - old(Inside(Now(wakeup)))
      ensures model.sh == old(model.sh).(wakeup := Some(b), strong := strong)
      ensures b == |old(frees)| && frees == AfterFree(old(frees), Now(old(wakeup))) + [0] && holds == old(holds) + [arc]
      ensures Kept(old(model), old(wakeup)) && u == Panics(Now(old(wakeup)))
    {
      hide Recorded, AfterFree, InsideOf;
      WakeupOf(i);
      AfterFreeAppend(frees, Now(wakeup), 0);
      InsideAppend(holds, arc, wakeup);
      InsideAppend(holds, arc, Now(wakeup));
      ghost var j := |model.objs|;
      var previous := wakeup;
      b := StoreWakeup(i, arc);
      u := Release(j, i, previous);
    }

    /** Up to the end of the slot's locked block. */
    method StoreWakeup(ghost i: nat, arc: bool) returns (b: BoxId)
      requires Valid() && !aborted && ((building && !arc) || (i < |model.objs| && IsOwner(model.objs[i])))
      modifies `frees, `holds, `strong, `wakeup, `model, `run
      ensures Valid() && b == |old(frees)| && frees == old(frees) + [0] && holds == old(holds) + [arc]
      ensures strong == old(strong) + Bit(arc) && model.sh == old(model.sh).(wakeup := Some(b), strong := strong)
      ensures model.objs == old(model.objs) + OwnershipSteps.Replaced(old(wakeup))
    {
      hide Recorded;
      b := NewBox(arc);
      wakeup := Some(b);
      Move(Label.SetWakeup(false, arc));
    }

    /** A Builder's wakeup closure holds no Arc; that of an Mpv may, and then an owner does too. */
    lemma WakeupOf(i: nat)
      requires Valid() && (building || (i < |model.objs| && IsOwner(model.objs[i])))
      ensures wakeup.Some? ==> wakeup.value < |frees| == |holds|
      ensures Inside(wakeup) == 1 ==> i < |model.objs| && HoldsArc(model.objs[i])
    {
      StoredIsThere(model, run);
      if building && wakeup.Some? { NoArcInside(model, run, wakeup.value); }
    }

    /** clear_wakeup_callback. */
    method ClearWakeup(ghost i: nat) returns (u: bool)
      requires Valid() && !aborted && (building || (i < |model.objs| && IsOwner(model.objs[i])))
      modifies this
      ensures Valid() && !aborted && strong == old(strong) - Inside(Now(old(wakeup)))
      ensures model.sh == old(model.sh).(wakeup := None, strong := strong)
      ensures frees == AfterFree(old(frees), Now(old(wakeup))) && holds == old(holds)
      ensures Kept(old(model), old(wakeup)) && u == Panics(Now(old(wakeup)))
    {
      hide Recorded, AfterFree, InsideOf;
      WakeupOf(i);
      ghost var j := |model.objs|;
      var previous := TakeWakeup(i);
      u := Release(j, i, previous);
    }

    /** Up to the end of the slot's locked block. */
    method TakeWakeup(ghost i: nat) returns (previous: Option<BoxId>)
      requires Valid() && !aborted && (building || (i < |model.objs| && IsOwner(model.objs[i])))
      modifies `wakeup, `model, `run
      ensures Valid() && previous == old(wakeup) && model.sh == old(model.sh).(wakeup := None)
      ensures model.objs == old(model.objs) + OwnershipSteps.Replaced(previous)
    {
      hide Recorded;
      previous := wakeup;
      wakeup := None;
      Move(Label.SetWakeup(true, false));
    }

    /** mpv.register_protocol through any owner i; `status` is libmpv's answer.  A refused box is
        freed before the error is returned, an accepted one goes to the registry and stays. */
    method RegisterProtocol(ghost i: nat, protocol: seq<Byte>, status: int, arc: bool)
      returns (r: Result<BoxId, Error>, u: bool)
      requires Valid() && !aborted && i < |model.objs| && IsOwner(model.objs[i])
      modifies this
      ensures Valid() && !aborted
      ensures r.Ok? <==> 0 !in protocol && status >= 0
      ensures r.Ok? ==> r.value == |old(frees)| && frees == old(frees) + [0]
      ensures r.Ok? ==> protocols == old(protocols) + [r.value] && table == old(table) + {r.value}
      ensures r.Err? ==> protocols == old(protocols) && table == old(table)
      ensures r.Err? ==> r.error == if 0 in protocol then InteriorNul else FromStatus(status)
      ensures r.Err? ==> frees == if 0 in protocol then old(frees) else old(frees) + [1]
      ensures strong == old(strong) + Bit(r.Ok? && arc)
      ensures terminations == old(terminations) && wakeup == old(wakeup)
      ensures u == (0 !in protocol && status < 0 && panics(|old(frees)|))
    {
      hide Recorded;
      SameLength();
      if 0 in protocol {
        return Err(InteriorNul), false;
      }
      ghost var j := |model.objs|;
      ghost var was := frees;
      var open := StartRegistration(i, arc);
      if status < 0 {
        assert AfterFree(frees, Some(open)) == was + [1];
        u := DropRefused(j, i, open);
        r := Err(FromStatus(status));
      } else {
        u := false;
        KeepAccepted(j, open);
        r := Ok(open);
      }
    }

    /** Box the open function. */
    method StartRegistration(ghost i: nat, arc: bool) returns (open: BoxId)
      requires Valid() && !aborted && i < |model.objs| && IsOwner(model.objs[i]) && |holds| == |frees|
      modifies `frees, `holds, `strong, `model, `run
      ensures Valid() && open == |old(frees)| && frees == old(frees) + [0] && Inside(Some(open)) == Bit(arc)
      ensures strong == old(strong) + Bit(arc) && model.sh == old(model.sh).(strong := strong)
      ensures model.objs == old(model.objs) + [Registration(RAdd, open, false)]
    {
      hide Recorded;
      open := NewBox(arc);
      Move(Label.Register(arc));
    }

    /** The `?` drops the box, whose pointer libmpv did not keep, and the Arc in it. */
    method DropRefused(ghost j: nat, ghost other: nat, open: BoxId) returns (u: bool)
      requires Valid() && !aborted && j < |model.objs| && model.objs[j] == Registration(RAdd, open, false)
      requires other < |model.objs| && other != j && HoldsArc(model.objs[other])
      modifies `frees, `aborted, `strong, `model, `run
      ensures Valid() && !aborted && frees == AfterFree(old(frees), Some(open))
      ensures strong == old(strong) - Inside(Some(open)) && model.sh == old(model.sh).(strong := strong)
      ensures u == panics(open)
    {
      hide Recorded;
      Move(Advance(j, true));
      u := DropAt(j, other, Some(open), false);
    }

    /** libmpv holds the pointer; the registry keeps the box. */
    method KeepAccepted(ghost j: nat, open: BoxId)
      requires Valid() && !aborted && j < |model.objs| && model.objs[j] == Registration(RAdd, open, false)
      modifies `table, `protocols, `model, `run
      ensures Valid() && table == old(table) + {open} && protocols == old(protocols) + [open]
      ensures model.objs == old(model.objs)[j := Done]
    {
      hide Recorded;
      table := table + {open};
      Move(Advance(j, false));
      protocols := protocols + [open];
      Move(Advance(j, false));
    }

    // ----- render contexts -----

    /** RenderContext::new_opengl or new_software, given the Arc i.  libmpv refuses, or creates
        a context, or claims success without one; then the closure is leaked, not freed. */
    method CreateContext(ghost i: nat, opengl: bool, status: int, noContext: bool, arc: bool)
      returns (c: Creation, u: bool)
      requires Valid() && !aborted && i < |model.objs| && IsHeld(model.objs[i]) && MayGive(model, i)
      modifies this
      ensures Valid()
      ensures match c
              case Made(gpa) =>
                && status >= 0 && !noContext && !aborted && gpa == (if opengl then Some(|old(frees)|) else None)
                && frees == old(frees) + (if opengl then [0] else [])
                && strong == old(strong) + Bit(opengl && arc) && model.sh == old(model.sh).(strong := strong)
                && model.objs == old(model.objs)[i := Context(Live, gpa, None, 0, false)]
              case NotMade(e) => status < 0 && e == FromStatus(status) && strong == old(strong) - 1
              case Panicked => status >= 0 && noContext && strong == old(strong) - 1 + Bit(opengl && arc)
      ensures !c.Made? && strong > 0 ==> frees == old(frees) + (if opengl then [Bit(c.NotMade?)] else [])
      ensures !c.Made? ==> terminations == Bit(strong == 0)
      ensures !c.Made? && strong == 0 && !aborted ==>
        CoreFreed(old(frees) + (if opengl then [Bit(c.NotMade?)] else []), old(wakeup), old(protocols))
      ensures u == match c
                   case Made(_) => false
                   case NotMade(_) =>
                     aborted || (opengl && panics(|old(frees)|)) || EndPanics(strong, old(wakeup), old(protocols))
                   case Panicked => true
    {
      hide Recorded, CoreFreed;
      if status < 0 {
        u := Refuse(i, opengl, arc);
        c := NotMade(FromStatus(status));
      } else if noContext {
        u := Forget(i, opengl, arc);
        c := Panicked;
      } else {
        u := false;
        var gpa := StartContext(i, opengl, Created, arc);
        c := Made(gpa);
      }
    }

    /** libmpv reports an error. */
    method Refuse(ghost i: nat, opengl: bool, arc: bool) returns (u: bool)
      requires Valid() && !aborted && i < |model.objs| && IsHeld(model.objs[i]) && MayGive(model, i)
      modifies this
      ensures Valid() && strong == old(strong) - 1 && terminations == Bit(strong == 0)
      ensures var was := old(frees) + (if opengl then [1] else []);
              && (strong > 0 ==> frees == was)
              && (strong == 0 && !aborted ==> CoreFreed(was, old(wakeup), old(protocols)))
      ensures u == (aborted || (opengl && panics(|old(frees)|)) || EndPanics(strong, old(wakeup), old(protocols)))
    {
      hide Recorded, CoreFreed;
      SameLength();
      ghost var was := frees;
      var gpa := StartContext(i, opengl, Refused, arc);
      assert AfterFree(frees, gpa) == was + (if opengl then [1] else []);
      u := DropFailed(i, gpa);
    }

    /** libmpv reports success, and there is no context. */
    method Forget(ghost i: nat, opengl: bool, arc: bool) returns (u: bool)
      requires Valid() && !aborted && i < |model.objs| && IsHeld(model.objs[i]) && MayGive(model, i)
      modifies this
      ensures Valid() && strong == old(strong) - 1 + Bit(opengl && arc) && terminations == Bit(strong == 0)
      ensures var was := old(frees) + (if opengl then [0] else []);
              && (strong > 0 ==> frees == was)
              && (strong == 0 && !aborted ==> CoreFreed(was, old(wakeup), old(protocols)))
      ensures u
    {
      hide Recorded, CoreFreed;
      var gpa := StartContext(i, opengl, NullContext, arc);
      u := DropArc(i, true);
    }

    /** Box the closure, if there is one, and ask libmpv.  On success without a context, the box
        is forgotten before the panic. */
    method StartContext(ghost i: nat, opengl: bool, outcome: Outcome, arc: bool) returns (gpa: Option<BoxId>)
      requires Valid() && !aborted && i < |model.objs| && IsHeld(model.objs[i]) && MayGive(model, i)
      modifies `frees, `holds, `strong, `leaked, `model, `run
      ensures Valid() && gpa == if opengl then Some(|old(frees)|) else None
      ensures frees == old(frees) + (if opengl then [0] else []) && holds == old(holds) + (if opengl then [arc] else [])
      ensures strong == old(strong) + Bit(opengl && arc) && i < |old(model.objs)|
      ensures model.sh == old(model.sh).(strong := strong, leaked := leaked)
      ensures outcome.NullContext? || leaked == old(leaked)
      ensures model.objs == old(model.objs)[i := match outcome
                                                 case Created => Context(Live, gpa, None, 0, false)
                                                 case Refused => Failed(FFreeGpa, gpa, false)
                                                 case NullContext => Failed(FDropCore, None, true)]
    {
      hide Recorded;
      gpa := None;
      if opengl {
        var b := NewBox(arc);
        gpa := Some(b);
        if outcome.NullContext? {
          leaked := leaked + {b};
        }
      }
      Move(NewContext(i, opengl, outcome, arc));
    }

    lemma SameLength()
      requires Valid()
      ensures |holds| == |frees|
    {
    }

    /** libmpv reports an error: the `?` drops the closure, then the Arc goes. */
    method DropFailed(ghost i: nat, gpa: Option<BoxId>) returns (u: bool)
      requires Valid() && !aborted && i < |model.objs| && model.objs[i] == Failed(FFreeGpa, gpa, false)
      modifies `strong, `terminations, `wakeup, `protocols, `frees, `aborted, `model, `run
      ensures Valid() && terminations == Bit(strong == 0) && strong == old(strong) - 1 - Inside(gpa)
      ensures strong > 0 ==> frees == AfterFree(old(frees), gpa)
      ensures strong == 0 && !aborted ==> CoreFreed(AfterFree(old(frees), gpa), old(wakeup), old(protocols))
      ensures u == (aborted || Panics(gpa) || EndPanics(strong, old(wakeup), old(protocols)))
    {
      hide Recorded, CoreFreed;
      u := DropAt(i, i, gpa, false);
      u := DropArc(i, u);
    }

    /** When everything has been let go of and has finished: nothing is freed twice or forgotten,
        and the core has ended unless a stored closure holds an Arc of its own player. */
    lemma EndsClean()
      requires Valid() && Ended(model)
      ensures terminations == Bit(!Cyclic(model))
      ensures forall b :: 0 <= b < |frees| ==> frees[b] + Bit(Stored(model, b)) == 1
      ensures !Cyclic(model) ==> forall b :: 0 <= b < |frees| ==> frees[b] + Bit(b in leaked) == 1
    {
      assert Reachable(model);
      EndIsClean(model);
    }
  }

  datatype Creation = Made(gpa: Option<BoxId>) | NotMade(error: Error) | Panicked

  /** RenderContext<Arc<Mpv>>: the inner renderer, and then the Arc. */
  class RenderContext {
    const core: Player
    const gpa: Option<BoxId>
    var update: Option<BoxId>
    var freeCalls: int
    ghost const i: nat

    /** The context is at point pc of its life. */
    ghost predicate At(pc: ContextPc, u: bool)
      reads this, core
    {
      core.Valid() && i < |core.model.objs| && core.model.objs[i] == Context(pc, gpa, update, freeCalls, u)
    }

    constructor (core: Player, gpa: Option<BoxId>, ghost i: nat)
      requires core.Valid() && i < |core.model.objs| && core.model.objs[i] == Context(Live, gpa, None, 0, false)
      ensures At(Live, false) && this.core == core && this.gpa == gpa && this.i == i && update == None
    {
      this.core, this.gpa, this.i, update, freeCalls := core, gpa, i, None, 0;
    }

    /** set_update_callback. */
    method SetUpdate(arc: bool) returns (b: BoxId, u: bool)
      requires At(Live, false) && !core.aborted
      modifies this, core
      ensures At(Live, false) && !core.aborted && update == Some(b)
      ensures core.strong == old(core.strong) + Bit(arc) - old(core.Inside(core.Now(update)))
      ensures core.model.sh == old(core.model.sh).(strong := core.strong)
      ensures b == |old(core.frees)| && core.frees == AfterFree(old(core.frees), core.Now(old(update))) + [0]
      ensures core.Kept(old(core.model), old(update)) && u == core.Panics(core.Now(old(update)))
    {
      hide Recorded, AfterFree, InsideOf;
      if update.Some? { HeldIsCreated(core.model, core.run, i, update.value); }
      core.SameLength();
      AfterFreeAppend(core.frees, core.Now(update), 0);
      InsideAppend(core.holds, arc, update);
      InsideAppend(core.holds, arc, core.Now(update));
      ghost var j := |core.model.objs|;
      var previous := update;
      b := StoreUpdate(arc);
      u := core.Release(j, i, previous);
    }

    /** Up to the end of the slot's locked block. */
    method StoreUpdate(arc: bool) returns (b: BoxId)
      requires At(Live, false) && !core.aborted
      modifies this`update, core`frees, core`holds, core`strong, core`model, core`run
      ensures At(Live, false) && b == |old(core.frees)| && update == Some(b)
      ensures core.frees == old(core.frees) + [0] && core.holds == old(core.holds) + [arc]
      ensures core.strong == old(core.strong) + Bit(arc)
      ensures core.model.sh == old(core.model.sh).(strong := core.strong) && i < |old(core.model.objs)|
      ensures core.model.objs == old(core.model.objs)[i := core.model.objs[i]] + OwnershipSteps.Replaced(old(update))
    {
      hide Recorded;
      b := core.NewBox(arc);
      update := Some(b);
      core.Move(Label.SetUpdate(i, false, arc));
    }

    /** clear_update_callback. */
    method ClearUpdate() returns (u: bool)
      requires At(Live, false) && !core.aborted
      modifies this, core
      ensures At(Live, false) && !core.aborted && update == None
      ensures core.strong == old(core.strong) - old(core.Inside(core.Now(update)))
      ensures core.model.sh == old(core.model.sh).(strong := core.strong)
      ensures core.frees == AfterFree(old(core.frees), core.Now(old(update))) && core.holds == old(core.holds)
      ensures core.Kept(old(core.model), old(update)) && u == core.Panics(core.Now(old(update)))
    {
      hide Recorded, AfterFree, InsideOf;
      ghost var j := |core.model.objs|;
      var previous := TakeUpdate();
      u := core.Release(j, i, previous);
    }

    /** Up to the end of the slot's locked block. */
    method TakeUpdate() returns (previous: Option<BoxId>)
      requires At(Live, false) && !core.aborted
      modifies this`update, core`model, core`run
      ensures At(Live, false) && update == None && previous == old(update) && core.model.sh == old(core.model.sh)
      ensures i < |old(core.model.objs)|
      ensures core.model.objs == old(core.model.objs)[i := core.model.objs[i]] + OwnershipSteps.Replaced(previous)
    {
      hide Recorded;
      previous := update;
      update := None;
      core.Move(Label.SetUpdate(i, true, false));
    }

    /** The body of RenderInner's Drop up to mpv_render_context_free. */
    method FreeContext(ghost u: bool)
      requires At(CUnregister, u) && !core.aborted
      modifies this`freeCalls, core`model, core`run
      ensures At(CDropUpdate, u) && freeCalls == old(freeCalls) + 1
      ensures core.model.sh == old(core.model.sh)
    {
      hide Recorded;
      core.Move(Advance(i, false));
      core.Move(Advance(i, false));
      freeCalls := freeCalls + 1;
      core.Move(Advance(i, false));
    }

    /** Drop of the handle on the update closure that was taken out of its slot. */
    method DropUpdate(unwinding: bool) returns (u: bool)
      requires At(CDropUpdate, unwinding) && !core.aborted
      modifies this`update, core`strong, core`frees, core`aborted, core`model, core`run
      ensures core.Valid()
      ensures !core.aborted ==> At(CFreeGpa, u) && update == None
      ensures !core.aborted ==> core.strong == old(core.strong) - core.Inside(core.Now(old(update)))
      ensures !core.aborted ==> core.model.sh == old(core.model.sh).(strong := core.strong)
      ensures !core.aborted ==> core.frees == AfterFree(old(core.frees), core.Now(old(update)))
      ensures u == (unwinding || core.Panics(core.Now(old(update)))) && (core.aborted ==> u)
    {
      hide Recorded;
      LeaveUpdate(unwinding);
      var closure := update;
      u := core.DropAt(i, i, closure, unwinding);
      if !core.aborted {
        update := None;
      }
    }

    /** A dispatch still holds the closure: it is the dispatch's from now on. */
    method LeaveUpdate(ghost u: bool)
      requires At(CDropUpdate, u) && !core.aborted
      modifies this`update, core`model, core`run
      ensures At(CDropUpdate, u) && update == core.Now(old(update)) && core.model.sh == old(core.model.sh)
    {
      hide Recorded;
      if update.Some? && core.late(update.value) {
        update := None;
        core.Move(LateUpdate(i));
      }
    }

    /** Drop of the field _get_proc_address. */
    method DropGpa(unwinding: bool) returns (u: bool)
      requires At(CFreeGpa, unwinding) && !core.aborted
      modifies core`strong, core`frees, core`aborted, core`model, core`run
      ensures core.Valid()
      ensures !core.aborted ==> At(CDropCore, u)
      ensures !core.aborted ==> core.strong == old(core.strong) - core.Inside(gpa)
      ensures !core.aborted ==> core.model.sh == old(core.model.sh).(strong := core.strong)
      ensures !core.aborted ==> core.frees == AfterFree(old(core.frees), gpa)
      ensures u == (unwinding || core.Panics(gpa)) && (core.aborted ==> u)
    {
      hide Recorded;
      u := core.DropAt(i, i, gpa, unwinding);
    }

    /** Drop of the field `inner`: free the context, then drop both closures. */
    method DropInner(unwinding: bool) returns (u: bool)
      requires At(CUnregister, unwinding) && !core.aborted
      modifies this`freeCalls, this`update, core`strong, core`frees, core`aborted, core`model, core`run
      ensures core.Valid() && freeCalls == old(freeCalls) + 1
      ensures !core.aborted ==> At(CDropCore, u) && update == None
      ensures !core.aborted ==>
        core.strong == old(core.strong) - core.Inside(core.Now(old(update))) - core.Inside(gpa)
      ensures !core.aborted ==> core.model.sh == old(core.model.sh).(strong := core.strong)
      ensures !core.aborted ==> core.frees == AfterFree(AfterFree(old(core.frees), core.Now(old(update))), gpa)
      ensures u == (core.aborted || unwinding || core.Panics(core.Now(old(update))) || core.Panics(gpa))
    {
      hide Recorded, AfterFree;
      FreeContext(unwinding);
      u := DropUpdate(unwinding);
      if !core.aborted {
        u := DropGpa(u);
      }
    }

    /** Drop: the context is freed once, then both closures, and the Arc last; if it was the
        last Arc, the core ends, after the context. */
    method Drop(unwinding: bool) returns (u: bool)
      requires At(Live, false) && !core.aborted && MayGive(core.model, i)
      modifies this, core
      ensures core.Valid() && freeCalls == 1
      ensures !core.aborted ==>
        core.strong == old(core.strong) - 1 - old(core.Inside(core.Now(update))) - old(core.Inside(gpa))
      ensures !core.aborted ==> core.terminations == Bit(core.strong == 0)
      ensures var was := AfterFree(AfterFree(old(core.frees), core.Now(old(update))), gpa);
              && (!core.aborted && core.strong > 0 ==> core.frees == was)
              && (!core.aborted && core.strong == 0 ==> core.CoreFreed(was, old(core.wakeup), old(core.protocols)))
      ensures !core.aborted ==>
        u == (unwinding || core.Panics(core.Now(old(update))) || core.Panics(gpa)
              || core.EndPanics(core.strong, old(core.wakeup), old(core.protocols)))
    {
      hide Recorded, AfterFree, InsideOf;
      LiveContextNotFreed();
      core.Move(Label.DropContext(i, unwinding));
      u := DropInner(unwinding);
      if !core.aborted {
        u := core.DropArc(i, u);
      }
    }

    lemma LiveContextNotFreed()
      requires At(Live, false)
      ensures freeCalls == 0
    {
      assert ObjAt(core.model.sh, |core.model.frees|, core.model.objs[i]);
    }
  }
}
