/** The inductive invariant of the ownership step system. */
module OwnershipInvariant {
  import opened Common
  import opened OwnershipSteps

  // ----- counting over objects -----

  /** The object holds one strong reference to the Mpv. */
  predicate HoldsArc(o: Obj) {
    o.Handle? || (o.Context? && !o.cpc.CGone?) || o.Failed?
  }

  /** The object is going to terminate the core. */
  predicate WillTerminate(o: Obj) {
    o.Core? && (o.mpc.MUnregister? || o.mpc.MTake? || o.mpc.MTerminate?)
  }

  predicate UpdateOwned(pc: ContextPc) {
    pc.Live? || pc.CUnregister? || pc.CTake? || pc.CFree? || pc.CDropUpdate?
  }

  /** How often box b is owned by the object. */
  function Owned(o: Obj, b: BoxId): nat {
    match o
    case Context(pc, gpa, update, _, _) =>
      Bit((UpdateOwned(pc) || pc.CFreeGpa?) && gpa == Some(b)) + Bit(UpdateOwned(pc) && update == Some(b))
    case Failed(pc, gpa, _) => Bit(pc.FFreeGpa? && gpa == Some(b))
    case Registration(_, x, _) => Bit(x == b)
    case Releasing(x, _) => Bit(x == b)
    case _ => 0
  }

  datatype Kind = Arcs | Terminators | Boxes(b: BoxId)

  function Weight(o: Obj, k: Kind): nat {
    match k
    case Arcs => Bit(HoldsArc(o))
    case Terminators => Bit(WillTerminate(o))
    case Boxes(b) => Owned(o, b)
  }

  function Sum(objs: seq<Obj>, k: Kind): nat {
    if objs == [] then 0 else Sum(objs[..|objs| - 1], k) + Weight(objs[|objs| - 1], k)
  }

  lemma {:induction false} SumAppend(objs: seq<Obj>, more: seq<Obj>, k: Kind)
    requires |more| <= 1
    ensures Sum(objs + more, k) == Sum(objs, k) + (if |more| == 1 then Weight(more[0], k) else 0)
  {
    if |more| == 1 {
      assert (objs + more)[..|objs|] == objs;
    } else {
      assert objs + more == objs;
    }
  }

  lemma {:induction false} SumUpdate(objs: seq<Obj>, i: nat, o: Obj, k: Kind)
    requires i < |objs|
    ensures Sum(objs[i := o], k) == Sum(objs, k) - Weight(objs[i], k) + Weight(o, k)
    ensures Sum(objs, k) >= Weight(objs[i], k)
  {
    var n := |objs| - 1;
    if i == n {
      assert objs[i := o][..n] == objs[..n];
    } else {
      SumUpdate(objs[..n], i, o, k);
      assert objs[i := o][..n] == objs[..n][i := o];
    }
  }

  /** One object replaced, at most one appended: the shape of every step. */
  lemma SumStep(objs: seq<Obj>, i: nat, o: Obj, more: seq<Obj>, k: Kind)
    requires i < |objs| && |more| <= 1
    ensures Sum(objs[i := o] + more, k)
            == Sum(objs, k) - Weight(objs[i], k) + Weight(o, k) + (if |more| == 1 then Weight(more[0], k) else 0)
    ensures Sum(objs, k) >= Weight(objs[i], k)
  {
    SumUpdate(objs, i, o, k);
    SumAppend(objs[i := o], more, k);
  }

  /** How often b occurs in the registry. */
  function Occurs(s: seq<BoxId>, b: BoxId): nat {
    if s == [] then 0 else Bit(s[0] == b) + Occurs(s[1..], b)
  }

  lemma {:induction false} OccursAppend(s: seq<BoxId>, x: BoxId, b: BoxId)
    ensures Occurs(s + [x], b) == Occurs(s, b) + Bit(x == b)
  {
    if s != [] {
      OccursAppend(s[1..], x, b);
      assert (s + [x])[1..] == s[1..] + [x];
    }
  }

  lemma {:induction false} OccursIn(s: seq<BoxId>, b: BoxId)
    ensures Occurs(s, b) > 0 <==> b in s
  {
    if s != [] { OccursIn(s[1..], b); }
  }

  function Frees(w: World, b: BoxId): int {
    if b < |w.frees| then w.frees[b] else 0
  }

  // ----- captured references -----

  /** The unfreed boxes whose closures hold an Arc. */
  function HeldCount(holds: seq<bool>, frees: seq<int>): nat
    requires |holds| == |frees|
  {
    if holds == [] then 0
    else
      var n := |holds| - 1;
      HeldCount(holds[..n], frees[..n]) + Bit(holds[n] && frees[n] == 0)
  }

  lemma HeldAppend(holds: seq<bool>, frees: seq<int>, arc: bool)
    requires |holds| == |frees|
    ensures HeldCount(holds + [arc], frees + [0]) == HeldCount(holds, frees) + Bit(arc)
  {
    assert (holds + [arc])[..|holds|] == holds && (frees + [0])[..|frees|] == frees;
  }

  lemma {:induction false} HeldFree(holds: seq<bool>, frees: seq<int>, b: BoxId)
    requires |holds| == |frees| && b < |frees| && frees[b] == 0
    ensures HeldCount(holds, frees[b := 1]) == HeldCount(holds, frees) - Bit(holds[b])
    ensures HeldCount(holds, frees) >= Bit(holds[b])
  {
    var n := |holds| - 1;
    if b == n {
      assert frees[b := 1][..n] == frees[..n];
    } else {
      HeldFree(holds[..n], frees[..n], b);
      assert frees[b := 1][..n] == frees[..n][b := 1];
    }
  }

  lemma {:induction false} HeldSome(holds: seq<bool>, frees: seq<int>, b: BoxId)
    requires |holds| == |frees| && b < |holds| && holds[b] && frees[b] == 0
    ensures HeldCount(holds, frees) > 0
  {
    var n := |holds| - 1;
    if b < n { HeldSome(holds[..n], frees[..n], b); }
  }

  lemma {:induction false} HeldNone(holds: seq<bool>, frees: seq<int>)
    requires |holds| == |frees| && forall b :: 0 <= b < |holds| && holds[b] ==> frees[b] != 0
    ensures HeldCount(holds, frees) == 0
  {
    if holds != [] { HeldNone(holds[..|holds| - 1], frees[..|holds| - 1]); }
  }

  // ----- the invariant -----

  /** Strong count: the objects that hold an Arc, and the unfreed closures that do.  The right
      to terminate the core belongs to the Builder, to all those together, to one object in
      its Drop, or it has been used. */
  ghost predicate CountInv(w: World) {
    && |w.holds| == |w.frees|
    && w.sh.strong == Sum(w.objs, Arcs) + HeldCount(w.holds, w.frees)
    && Bit(w.sh.building) + Bit(w.sh.strong > 0) + Sum(w.objs, Terminators) + w.sh.terminations == 1
    && w.sh.terminations >= 0
  }

  /** Owners of box b: the wakeup slot, the registry, the leak, or an object. */
  function Owners(w: World, b: BoxId): nat {
    Bit(w.sh.wakeup == Some(b)) + Occurs(w.sh.registry, b) + Bit(b in w.sh.leaked) + Sum(w.objs, Boxes(b))
  }

  /** Every box created is either owned exactly once or has been freed exactly once. */
  predicate BoxAt(w: World, b: BoxId) {
    Owners(w, b) + Frees(w, b) == Bit(b < |w.frees|) && Frees(w, b) >= 0
  }

  ghost predicate BoxInv(w: World) {
    forall b: BoxId :: BoxAt(w, b)
  }

  predicate ObjAt(sh: Shared, created: nat, o: Obj) {
    match o
    case Context(pc, gpa, update, n, _) =>
      && n == Bit(pc.CDropUpdate? || pc.CFreeGpa? || pc.CDropCore? || pc.CGone?)
      && (pc.CFreeGpa? || pc.CDropCore? || pc.CGone? ==> update.None?)
      && (gpa.Some? ==> gpa.value < created)
    case Core(pc, _) =>
      && sh.strong == 0 && !sh.building
      && (pc.MDropWakeup? || pc.MFreeProtocols? ==> sh.terminations >= 1)
      && (pc.MFreeProtocols? ==> sh.wakeup.None?)
    case Registration(pc, b, _) => if pc.RPush? then b in sh.table else b !in sh.table
    case _ => true
  }

  ghost predicate ObjInv(w: World) {
    && (forall i :: 0 <= i < |w.objs| ==> ObjAt(w.sh, |w.frees|, w.objs[i]))
    && (w.sh.building ==> w.sh.strong == 0)
    && (forall b :: b in w.sh.table ==> b < |w.frees|)
    && (forall b :: b in w.sh.registry ==> b in w.sh.table)
  }

  /** A registration in progress borrows the Mpv from some owner. */
  ghost predicate BorrowInv(w: World) {
    (exists j :: 0 <= j < |w.objs| && w.objs[j].Registration?) ==>
      exists j :: 0 <= j < |w.objs| && IsOwner(w.objs[j])
  }

  /** While the core lives, libmpv's open-function pointers are in the registry or on their way. */
  ghost predicate TableAt(w: World, b: BoxId) {
    b in w.sh.table && w.sh.terminations == 0 ==>
      b in w.sh.registry || exists i :: 0 <= i < |w.objs| && InFlight(w.objs[i], b)
  }

  predicate InFlight(o: Obj, b: BoxId) {
    o.Registration? && o.rpc.RPush? && o.box == b
  }

  ghost predicate TableInv(w: World) {
    forall b: BoxId :: TableAt(w, b)
  }

  /** Once the Mpv's drop is over, its wakeup slot and its registry are empty. */
  ghost predicate EndInv(w: World) {
    w.sh.terminations >= 1 && (forall i :: 0 <= i < |w.objs| ==> !w.objs[i].Core?) ==>
      w.sh.wakeup.None? && w.sh.registry == []
  }

  /** A Builder has no protocols; `build` starts with an empty registry. */
  predicate BuilderInv(w: World) {
    w.sh.building ==> w.sh.registry == []
  }

  ghost predicate Inv(w: World) {
    CountInv(w) && BoxInv(w) && ObjInv(w) && BorrowInv(w) && TableInv(w) && EndInv(w) && BuilderInv(w)
  }

  lemma InitInv()
    ensures Inv(Init())
  {
  }

  // ----- one step of one object -----

  /** What a step does to the strong references and to the right to terminate. */
  lemma CountFollows(sh: Shared, o: Obj, flag: bool)
    requires Moves(o)
    ensures var t := Effect(sh, o, flag); var n := Next(sh, o, flag); var more := Continues(sh, o);
            && |more| <= 1
            && t.strong == sh.strong - Bit(HoldsArc(o)) + Bit(HoldsArc(n))
            && (|more| == 1 ==> !HoldsArc(more[0]) && WillTerminate(more[0]))
            && (|more| == 1 <==> t.strong == 0 && t.strong < sh.strong)
            && t.strong <= sh.strong && t.building == sh.building
            && Bit(WillTerminate(o)) + sh.terminations == Bit(WillTerminate(n)) + t.terminations
            && t.terminations >= sh.terminations
  {
    match o
    case Core(_, _) =>
    case Context(_, _, _, _, _) =>
    case _ =>
  }

  /** What a step frees was owned, so it had not been freed. */
  lemma FreedIsLive(w: World, i: nat, b: BoxId)
    requires BoxInv(w) && i < |w.objs| && Moves(w.objs[i]) && FreedAt(w.sh, w.objs[i]) == Some(b)
    ensures b < |w.frees| && w.frees[b] == 0
  {
    assert BoxAt(w, b);
    SumUpdate(w.objs, i, w.objs[i], Boxes(b));
    OccursIn(w.sh.registry, b);
  }

  /** What a step sets off, beside what it does itself: at most one object, and a captured
      Arc is taken over by the object that drops it. */
  lemma SetsOffFollows(w: World, o: Obj, flag: bool)
    requires Moves(o)
    ensures var more := SetsOff(w, o, flag);
            && |more| <= 1
            && (FreesArc(w, o) ==> more == [Handle(Dropping, o.unwinding || flag)] && !DropsArc(o))
            && (!FreesArc(w, o) ==> more == Continues(w.sh, o))
            && Continues(w.sh, o) == if DropsArc(o) && w.sh.strong == 1 then [Core(MUnregister, o.unwinding)] else []
  {
  }

  /** The unfreed closures that hold an Arc, after a step. */
  lemma HeldFollows(w: World, i: nat)
    requires |w.holds| == |w.frees| && BoxInv(w) && i < |w.objs| && Moves(w.objs[i])
    ensures var frees := CountFree(w.frees, FreedAt(w.sh, w.objs[i]));
            && |frees| == |w.frees|
            && HeldCount(w.holds, frees) == HeldCount(w.holds, w.frees) - Bit(FreesArc(w, w.objs[i]))
            && HeldCount(w.holds, w.frees) >= Bit(FreesArc(w, w.objs[i]))
  {
    var b := FreedAt(w.sh, w.objs[i]);
    if b.Some? {
      FreedIsLive(w, i, b.value);
      HeldFree(w.holds, w.frees, b.value);
    }
  }

  lemma CountKept(w: World, i: nat, flag: bool)
    requires CountInv(w) && BoxInv(w) && i < |w.objs| && Moves(w.objs[i])
    ensures CountInv(AdvanceBy(w, i, flag))
  {
    var o := w.objs[i];
    if !Aborts(w.sh, o, flag) {
      HeldFollows(w, i);
      CountFollows(w.sh, o, flag);
      SetsOffFollows(w, o, flag);
      hide FreesArc, Effect, Next, Continues, SetsOff, FreedAt, HeldCount, CountFree, BoxInv, DropsArc, Moves;
      SumStep(w.objs, i, Next(w.sh, o, flag), SetsOff(w, o, flag), Arcs);
      SumStep(w.objs, i, Next(w.sh, o, flag), SetsOff(w, o, flag), Terminators);
    }
  }

  /** What a step does to the ownership of box b. */
  lemma ContextBoxes(sh: Shared, o: Obj, flag: bool, b: BoxId)
    requires Moves(o) && o.Context?
    ensures Owned(Next(sh, o, flag), b) + Bit(FreedAt(sh, o) == Some(b)) == Owned(o, b)
  {
  }

  lemma CoreBoxes(sh: Shared, o: Obj, flag: bool, b: BoxId)
    requires o.Core?
    ensures var t := Effect(sh, o, flag);
            Bit(t.wakeup == Some(b)) + Occurs(t.registry, b) + Bit(FreedAt(sh, o) == Some(b))
            == Bit(sh.wakeup == Some(b)) + Occurs(sh.registry, b)
  {
  }

  lemma RegistrationBoxes(sh: Shared, o: Obj, flag: bool, b: BoxId)
    requires o.Registration?
    ensures Occurs(Effect(sh, o, flag).registry, b) + Owned(Next(sh, o, flag), b) + Bit(FreedAt(sh, o) == Some(b))
            == Occurs(sh.registry, b) + Owned(o, b)
    ensures Effect(sh, o, flag).wakeup == sh.wakeup && Effect(sh, o, flag).leaked == sh.leaked
  {
    OccursAppend(sh.registry, o.box, b);
  }

  lemma FailedBoxes(sh: Shared, o: Obj, flag: bool, b: BoxId)
    requires o.Failed?
    ensures Owned(Next(sh, o, flag), b) + Bit(FreedAt(sh, o) == Some(b)) == Owned(o, b)
  {
  }

  function SlotAndRegistry(sh: Shared, b: BoxId): nat {
    Bit(sh.wakeup == Some(b)) + Occurs(sh.registry, b)
  }

  lemma BoxFollows(sh: Shared, o: Obj, flag: bool, b: BoxId)
    requires Moves(o)
    ensures var t := Effect(sh, o, flag); var n := Next(sh, o, flag);
            && Bit(t.wakeup == Some(b)) + Occurs(t.registry, b) + Owned(n, b) + Bit(FreedAt(sh, o) == Some(b))
               == Bit(sh.wakeup == Some(b)) + Occurs(sh.registry, b) + Owned(o, b)
            && t.leaked == sh.leaked
  {
    BoxMoves(sh, o, flag, b);
    hide Effect, Next, FreedAt, Owned, Occurs;
  }

  /** The same, case by case. */
  lemma BoxMoves(sh: Shared, o: Obj, flag: bool, b: BoxId)
    requires Moves(o)
    ensures SlotAndRegistry(Effect(sh, o, flag), b) + Owned(Next(sh, o, flag), b) + Bit(FreedAt(sh, o) == Some(b))
            == SlotAndRegistry(sh, b) + Owned(o, b)
    ensures Effect(sh, o, flag).leaked == sh.leaked
  {
    match o
    case Core(_, _) => CoreBoxes(sh, o, flag, b);
    case Context(_, _, _, _, _) => ContextBoxes(sh, o, flag, b);
    case Registration(_, _, _) => RegistrationBoxes(sh, o, flag, b);
    case Failed(_, _, _) => FailedBoxes(sh, o, flag, b);
    case _ =>
  }

  lemma BoxKept(w: World, i: nat, flag: bool, b: BoxId)
    requires BoxAt(w, b) && i < |w.objs| && Moves(w.objs[i])
    ensures BoxAt(AdvanceBy(w, i, flag), b)
  {
    var o := w.objs[i];
    if !Aborts(w.sh, o, flag) {
      BoxFollows(w.sh, o, flag, b);
      SetsOffFollows(w, o, flag);
      SumStep(w.objs, i, Next(w.sh, o, flag), SetsOff(w, o, flag), Boxes(b));
    }
  }

  lemma SumTwo(objs: seq<Obj>, i: nat, j: nat, k: Kind)
    requires i < |objs| && j < |objs| && i != j
    ensures Sum(objs, k) >= Weight(objs[i], k) + Weight(objs[j], k)
  {
    SumUpdate(objs, i, Done, k);
    SumUpdate(objs[i := Done], j, Done, k);
  }

  /** A step seen from the object that makes it. */
  lemma ObjOwn(sh: Shared, created: nat, o: Obj, flag: bool)
    requires ObjAt(sh, created, o) && Moves(o) && sh.terminations >= 0
    requires HoldsArc(o) ==> sh.strong > 0 && !sh.building
    ensures ObjAt(Effect(sh, o, flag), created, Next(sh, o, flag))
    ensures forall m :: m in Continues(sh, o) ==> ObjAt(Effect(sh, o, flag), created, m)
  {
    match o
    case Core(_, _) =>
    case Context(_, _, _, _, _) =>
    case _ =>
  }

  /** A step of o seen from any other object p. */
  lemma ObjOther(sh: Shared, created: nat, o: Obj, flag: bool, p: Obj)
    requires ObjAt(sh, created, p) && sh.terminations >= 0
    requires HoldsArc(o) ==> sh.strong > 0
    requires o.Registration? && p.Registration? ==> o.box != p.box
    ensures ObjAt(Effect(sh, o, flag), created, p)
  {
    match o
    case Core(_, _) =>
    case Context(_, _, _, _, _) =>
    case _ =>
  }

  lemma ObjKept(w: World, i: nat, flag: bool)
    requires CountInv(w) && BoxInv(w) && ObjInv(w) && i < |w.objs| && Moves(w.objs[i])
    ensures ObjInv(AdvanceBy(w, i, flag))
  {
    var o := w.objs[i];
    if !Aborts(w.sh, o, flag) {
      var t := AdvanceBy(w, i, flag);
      SumUpdate(w.objs, i, o, Arcs);
      ObjOwn(w.sh, |w.frees|, o, flag);
      SetsOffFollows(w, o, flag);
      forall j | 0 <= j < |t.objs| ensures ObjAt(t.sh, |t.frees|, t.objs[j]) {
        if j < |w.objs| && j != i {
          if o.Registration? && w.objs[j].Registration? && o.box == w.objs[j].box {
            SumTwo(w.objs, i, j, Boxes(o.box));
            assert BoxAt(w, o.box);
          }
          ObjOther(w.sh, |w.frees|, o, flag, w.objs[j]);
        } else if j >= |w.objs| {
          assert t.objs[j] in SetsOff(w, o, flag);
        }
      }
      TableGrows(w, i, flag);
    }
  }

  lemma TableGrows(w: World, i: nat, flag: bool)
    requires BoxInv(w) && ObjInv(w) && i < |w.objs| && Moves(w.objs[i]) && !Aborts(w.sh, w.objs[i], flag)
    ensures var t := AdvanceBy(w, i, flag);
            (forall b :: b in t.sh.table ==> b < |t.frees|) && (forall b :: b in t.sh.registry ==> b in t.sh.table)
  {
    var o := w.objs[i];
    if o.Registration? {
      SumUpdate(w.objs, i, o, Boxes(o.box));
      assert BoxAt(w, o.box);
      assert ObjAt(w.sh, |w.frees|, o);
    }
  }

  lemma BorrowKept(w: World, i: nat, flag: bool)
    requires BorrowInv(w) && i < |w.objs| && Moves(w.objs[i])
    ensures BorrowInv(AdvanceBy(w, i, flag))
  {
    var t := AdvanceBy(w, i, flag);
    if j :| 0 <= j < |t.objs| && t.objs[j].Registration? {
      assert w.objs[j].Registration?;
      var k :| 0 <= k < |w.objs| && IsOwner(w.objs[k]);
      assert IsOwner(t.objs[k]);
    }
  }

  lemma TableKept(w: World, i: nat, flag: bool, b: BoxId)
    requires CountInv(w) && ObjInv(w) && TableAt(w, b) && i < |w.objs| && Moves(w.objs[i])
    ensures TableAt(AdvanceBy(w, i, flag), b)
  {
    var o := w.objs[i];
    var t := AdvanceBy(w, i, flag);
    assert ObjAt(w.sh, |w.frees|, o);
    if b in t.sh.table && t.sh.terminations == 0 && !Aborts(w.sh, o, flag) {
      CountFollows(w.sh, o, flag);
      if b in w.sh.table && b !in w.sh.registry {
        var j :| 0 <= j < |w.objs| && InFlight(w.objs[j], b);
        if j != i { assert InFlight(t.objs[j], b); }
      } else if b !in w.sh.table {
        assert InFlight(t.objs[i], b);
      }
    }
  }

  // ----- user calls -----

  /** Calls that change one object; the others append at most one. */
  predicate InPlace(l: Label) {
    l.DropHandle? || l.NewContext? || l.DropContext? || l.SetUpdate? || l.LateUpdate?
  }

  function Released(w: World, l: Label): seq<Obj>
    requires Enabled(w, l)
  {
    if l.SetUpdate? || l.LateUpdate? then Replaced(w.objs[l.i].update) else []
  }

  /** Arcs that the closure passed to a call captures. */
  function NewArc(l: Label): nat {
    Bit(NewBox(l) == [true])
  }

  /** A new box is unfreed, and counts if its closure holds an Arc. */
  lemma NewBoxHeld(w: World, l: Label)
    requires |w.holds| == |w.frees| && Enabled(w, l) && !l.Advance?
    ensures var t := Apply(w, l);
            |t.holds| == |t.frees| && HeldCount(t.holds, t.frees) == HeldCount(w.holds, w.frees) + NewArc(l)
  {
    var box := NewBox(l);
    if box != [] {
      assert box == [box[0]];
      HeldAppend(w.holds, w.frees, box[0]);
    }
    BoxesOfCall(w, l);
  }

  lemma BoxesOfCall(w: World, l: Label)
    requires Enabled(w, l) && !l.Advance?
    ensures Apply(w, l).holds == w.holds + NewBox(l)
    ensures Apply(w, l).frees == if NewBox(l) == [] then w.frees else w.frees + [0]
  {
  }

  lemma InPlaceShape(w: World, l: Label)
    requires Enabled(w, l) && InPlace(l)
    ensures var t := Apply(w, l);
            && l.i < |w.objs| <= |t.objs| && t.objs == w.objs[l.i := t.objs[l.i]] + Released(w, l)
            && t.sh == w.sh.(leaked := t.sh.leaked, strong := w.sh.strong + NewArc(l))
            && HoldsArc(t.objs[l.i]) && HoldsArc(w.objs[l.i])
            && !WillTerminate(t.objs[l.i]) && !WillTerminate(w.objs[l.i])
  {
  }

  lemma ReleasedWeighsNothing(w: World, l: Label)
    requires Enabled(w, l)
    ensures |Released(w, l)| <= 1 && SumOf(Released(w, l), Arcs) == SumOf(Released(w, l), Terminators) == 0
  {
  }

  lemma UserCountInPlace(w: World, l: Label)
    requires CountInv(w) && Enabled(w, l) && InPlace(l)
    ensures CountInv(Apply(w, l))
  {
    hide Apply, Enabled, HeldCount, NewBox, Replaced, Released, Moves;
    var t := Apply(w, l);
    InPlaceShape(w, l);
    ReleasedWeighsNothing(w, l);
    NewBoxHeld(w, l);
    OwnerCounts(w, l.i);
    SumStep(w.objs, l.i, t.objs[l.i], Released(w, l), Arcs);
    SumStep(w.objs, l.i, t.objs[l.i], Released(w, l), Terminators);
  }

  function SumOf(more: seq<Obj>, k: Kind): nat {
    if |more| == 1 then Weight(more[0], k) else 0
  }

  /** The object a call creates, if it is not InPlace. */
  function Added(w: World, l: Label): seq<Obj> {
    match l
    case BuilderSet(ok) => if ok then [] else [Core(MUnregister, false)]
    case Build(ok) => [if ok then Handle(Held, false) else Core(MUnregister, false)]
    case DropBuilder => [Core(MUnregister, false)]
    case SetWakeup(_, _) => Replaced(w.sh.wakeup)
    case LateWakeup(_) => Replaced(w.sh.wakeup)
    case Clone(_) => [Handle(Held, false)]
    case Register(_) => [Registration(RAdd, |w.frees|, false)]
    case _ => []
  }

  lemma AppendShape(w: World, l: Label)
    requires Enabled(w, l) && !l.Advance? && !InPlace(l)
    requires w.sh.building ==> w.sh.strong == 0
    requires l.Clone? || NewArc(l) > 0 ==> w.sh.strong > 0
    ensures var t := Apply(w, l);
            && t.objs == w.objs + Added(w, l) && |Added(w, l)| <= 1
            && t.sh.strong == w.sh.strong + SumOf(Added(w, l), Arcs) + NewArc(l)
            && Bit(w.sh.building) + Bit(w.sh.strong > 0)
               == Bit(t.sh.building) + Bit(t.sh.strong > 0) + SumOf(Added(w, l), Terminators)
            && t.sh.terminations == w.sh.terminations
  {
  }

  /** A closure that captures an Arc, and a clone, are made by some owner. */
  lemma ArcMeansOwner(w: World, l: Label)
    requires CountInv(w) && Enabled(w, l) && !l.Advance?
    requires w.sh.building ==> w.sh.strong == 0
    ensures l.Clone? || NewArc(l) > 0 ==> w.sh.strong > 0 && !w.sh.building
  {
    if l.Clone? || NewArc(l) > 0 {
      SomeOwner(w, l);
      var j :| 0 <= j < |w.objs| && HoldsArc(w.objs[j]);
      OwnerCounts(w, j);
    }
  }

  lemma SomeOwner(w: World, l: Label)
    requires Enabled(w, l) && (l.Clone? || NewArc(l) > 0) && (w.sh.building ==> w.sh.strong == 0)
    ensures exists j :: 0 <= j < |w.objs| && HoldsArc(w.objs[j])
  {
    if l.Clone? || l.NewContext? || l.SetUpdate? {
      assert HoldsArc(w.objs[l.i]);
    } else {
      var j :| 0 <= j < |w.objs| && IsOwner(w.objs[j]);
      assert HoldsArc(w.objs[j]);
    }
  }

  lemma OwnerCounts(w: World, j: nat)
    requires CountInv(w) && j < |w.objs| && HoldsArc(w.objs[j])
    ensures w.sh.strong > 0
  {
    SumUpdate(w.objs, j, w.objs[j], Arcs);
  }

  lemma UserCountAppend(w: World, l: Label)
    requires CountInv(w) && ObjInv(w) && Enabled(w, l) && !l.Advance? && !InPlace(l)
    ensures CountInv(Apply(w, l))
  {
    hide Apply, Enabled, HeldCount, NewBox, Added, ObjAt;
    ArcMeansOwner(w, l);
    AppendShape(w, l);
    NewBoxHeld(w, l);
    SumAppend(w.objs, Added(w, l), Arcs);
    SumAppend(w.objs, Added(w, l), Terminators);
  }

  /** A box is created exactly when `frees` grows, and its owner is who asked for it. */
  lemma InPlaceBoxes(w: World, l: Label, b: BoxId)
    requires Enabled(w, l) && InPlace(l)
    requires b >= |w.frees| ==> Owned(w.objs[l.i], b) == 0 && b !in w.sh.leaked
    ensures var t := Apply(w, l);
            && Owned(t.objs[l.i], b) + SumOf(Released(w, l), Boxes(b)) + Bit(b in t.sh.leaked) + Bit(b < |w.frees|)
               == Owned(w.objs[l.i], b) + Bit(b in w.sh.leaked) + Bit(b < |t.frees|)
            && Frees(t, b) == Frees(w, b)
  {
  }

  lemma UserBoxInPlace(w: World, l: Label, b: BoxId)
    requires BoxAt(w, b) && Enabled(w, l) && InPlace(l)
    ensures BoxAt(Apply(w, l), b)
  {
    InPlaceShape(w, l);
    SumStep(w.objs, l.i, Apply(w, l).objs[l.i], Released(w, l), Boxes(b));
    InPlaceBoxes(w, l, b);
  }

  lemma AppendBoxes(w: World, l: Label, b: BoxId)
    requires Enabled(w, l) && !l.Advance? && !InPlace(l)
    requires b >= |w.frees| ==> w.sh.wakeup != Some(b)
    ensures var t := Apply(w, l);
            && t.objs == w.objs + Added(w, l) && |Added(w, l)| <= 1
            && Bit(t.sh.wakeup == Some(b)) + SumOf(Added(w, l), Boxes(b)) + Bit(b < |w.frees|)
               == Bit(w.sh.wakeup == Some(b)) + Bit(b < |t.frees|)
            && t.sh.registry == w.sh.registry && t.sh.leaked == w.sh.leaked && Frees(t, b) == Frees(w, b)
  {
  }

  lemma UserBoxAppend(w: World, l: Label, b: BoxId)
    requires BoxAt(w, b) && Enabled(w, l) && !l.Advance? && !InPlace(l)
    ensures BoxAt(Apply(w, l), b)
  {
    AppendBoxes(w, l, b);
    SumAppend(w.objs, Added(w, l), Boxes(b));
  }

  lemma UserObj(w: World, l: Label)
    requires CountInv(w) && ObjInv(w) && Enabled(w, l) && !l.Advance?
    ensures ObjInv(Apply(w, l))
  {
    var t := Apply(w, l);
    ArcMeansOwner(w, l);
    forall j | 0 <= j < |t.objs| ensures ObjAt(t.sh, |t.frees|, t.objs[j]) { UserObjAt(w, l, j); }
  }

  lemma UserObjAt(w: World, l: Label, j: nat)
    requires CountInv(w) && ObjInv(w) && Enabled(w, l) && !l.Advance? && j < |Apply(w, l).objs|
    ensures ObjAt(Apply(w, l).sh, |Apply(w, l).frees|, Apply(w, l).objs[j])
  {
    if j < |w.objs| {
      assert ObjAt(w.sh, |w.frees|, w.objs[j]);
      if w.objs[j].Core? { OnlyLateAfterEnd(w, l, j); }
      if InPlace(l) { InPlaceObj(w, l, j); } else { AppendObj(w, l, j); }
    } else {
      NewObj(w, l, j);
    }
  }

  /** Once an object has begun to drop the Mpv, no call is possible any more. */
  lemma OnlyLateAfterEnd(w: World, l: Label, j: nat)
    requires CountInv(w) && ObjInv(w) && Enabled(w, l) && !l.Advance? && j < |w.objs| && w.objs[j].Core?
    ensures l.LateWakeup?
  {
    CoreMeansEnd(w, j);
  }

  lemma InPlaceObj(w: World, l: Label, j: nat)
    requires Enabled(w, l) && InPlace(l) && j < |w.objs| && !w.objs[j].Core?
    requires ObjAt(w.sh, |w.frees|, w.objs[j])
    ensures j < |Apply(w, l).objs| && ObjAt(Apply(w, l).sh, |Apply(w, l).frees|, Apply(w, l).objs[j])
  {
  }

  lemma AppendObj(w: World, l: Label, j: nat)
    requires Enabled(w, l) && !l.Advance? && !InPlace(l) && j < |w.objs| && (w.objs[j].Core? ==> l.LateWakeup?)
    requires ObjAt(w.sh, |w.frees|, w.objs[j])
    ensures j < |Apply(w, l).objs| && ObjAt(Apply(w, l).sh, |Apply(w, l).frees|, Apply(w, l).objs[j])
  {
  }

  lemma NewObj(w: World, l: Label, j: nat)
    requires ObjInv(w) && Enabled(w, l) && !l.Advance? && |w.objs| <= j < |Apply(w, l).objs|
    ensures ObjAt(Apply(w, l).sh, |Apply(w, l).frees|, Apply(w, l).objs[j])
  {
  }

  /** Once an object has begun to drop the Mpv, no owner is left and nothing can be created. */
  lemma CoreMeansEnd(w: World, j: nat)
    requires CountInv(w) && ObjInv(w) && j < |w.objs| && w.objs[j].Core?
    ensures !w.sh.building && forall i :: 0 <= i < |w.objs| ==> !HoldsArc(w.objs[i])
  {
    assert ObjAt(w.sh, |w.frees|, w.objs[j]);
    forall i | 0 <= i < |w.objs| ensures !HoldsArc(w.objs[i]) {
      SumUpdate(w.objs, i, w.objs[i], Arcs);
    }
  }

  lemma UserBorrow(w: World, l: Label)
    requires CountInv(w) && ObjInv(w) && BorrowInv(w) && Enabled(w, l) && !l.Advance?
    ensures BorrowInv(Apply(w, l))
  {
    var t := Apply(w, l);
    if j :| 0 <= j < |t.objs| && t.objs[j].Registration? {
      BorrowSource(w, l, j);
      if l.DropHandle? || l.NewContext? || l.DropContext? {
        var k :| 0 <= k < |w.objs| && k != l.i && IsOwner(w.objs[k]);
        OwnerKept(w, l, k);
      } else {
        var k :| 0 <= k < |w.objs| && IsOwner(w.objs[k]);
        OwnerKept(w, l, k);
      }
    }
  }

  lemma BorrowSource(w: World, l: Label, j: nat)
    requires Enabled(w, l) && !l.Advance? && j < |Apply(w, l).objs| && Apply(w, l).objs[j].Registration?
    ensures l.Register? || (j < |w.objs| && w.objs[j].Registration?)
  {
  }

  lemma OwnerKept(w: World, l: Label, k: nat)
    requires Enabled(w, l) && !l.Advance? && k < |w.objs| && IsOwner(w.objs[k])
    requires l.DropHandle? || l.NewContext? || l.DropContext? ==> k != l.i
    ensures k < |Apply(w, l).objs| && IsOwner(Apply(w, l).objs[k])
  {
  }

  lemma UserTable(w: World, l: Label, b: BoxId)
    requires TableAt(w, b) && Enabled(w, l) && !l.Advance?
    ensures TableAt(Apply(w, l), b)
  {
    var t := Apply(w, l);
    if b in t.sh.table && t.sh.terminations == 0 && b !in t.sh.registry {
      var j :| 0 <= j < |w.objs| && InFlight(w.objs[j], b);
      assert InFlight(t.objs[j], b);
    }
  }

  /** After termination nothing holds the Mpv, so nothing can reach it either. */
  lemma NoOwnerAfterEnd(w: World, i: nat)
    requires CountInv(w) && BorrowInv(w) && w.sh.terminations >= 1 && i < |w.objs|
    ensures !HoldsArc(w.objs[i]) && !w.objs[i].Registration? && !w.sh.building
  {
    SumUpdate(w.objs, i, w.objs[i], Arcs);
    if w.objs[i].Registration? {
      var k :| 0 <= k < |w.objs| && IsOwner(w.objs[k]);
      SumUpdate(w.objs, k, w.objs[k], Arcs);
    }
  }

  lemma EndKept(w: World, i: nat, flag: bool)
    requires CountInv(w) && ObjInv(w) && BorrowInv(w) && EndInv(w) && i < |w.objs| && Moves(w.objs[i])
    ensures EndInv(AdvanceBy(w, i, flag))
  {
    var o := w.objs[i];
    var t := AdvanceBy(w, i, flag);
    if t.sh.terminations >= 1 && !Aborts(w.sh, o, flag) && forall j :: 0 <= j < |t.objs| ==> !t.objs[j].Core? {
      assert ObjAt(w.sh, |w.frees|, o);
      assert t.objs[i] == Next(w.sh, o, flag);
      if !o.Core? {
        assert w.sh.terminations >= 1;
        NoOwnerAfterEnd(w, i);
        forall j | 0 <= j < |w.objs| ensures !w.objs[j].Core? {
          if j != i { assert t.objs[j] == w.objs[j]; }
        }
      }
    }
  }

  lemma EndUser(w: World, l: Label)
    requires CountInv(w) && ObjInv(w) && BorrowInv(w) && EndInv(w) && Enabled(w, l) && !l.Advance?
    ensures EndInv(Apply(w, l))
  {
    var t := Apply(w, l);
    if l.LateWakeup? {
      assert t.objs[l.i].Core?;
    } else if t.sh.terminations >= 1 {
      forall i | 0 <= i < |w.objs| ensures !HoldsArc(w.objs[i]) && !w.sh.building { NoOwnerAfterEnd(w, i); }
    }
  }

  lemma BuilderKept(w: World, i: nat, flag: bool)
    requires CountInv(w) && ObjInv(w) && BorrowInv(w) && BuilderInv(w) && i < |w.objs| && Moves(w.objs[i])
    ensures BuilderInv(AdvanceBy(w, i, flag))
  {
    if w.sh.building && w.objs[i].Registration? {
      var k :| 0 <= k < |w.objs| && IsOwner(w.objs[k]);
      SumUpdate(w.objs, k, w.objs[k], Arcs);
      assert false;
    }
  }

  lemma BuilderUser(w: World, l: Label)
    requires BuilderInv(w) && Enabled(w, l) && !l.Advance?
    ensures BuilderInv(Apply(w, l))
  {
  }

  // ----- every step, every run -----

  lemma InvKept(w: World, l: Label)
    requires Inv(w) && Enabled(w, l)
    ensures Inv(Apply(w, l))
  {
    if l.Advance? {
      CountKept(w, l.i, l.flag);
      forall b: BoxId ensures BoxAt(Apply(w, l), b) { assert BoxAt(w, b); BoxKept(w, l.i, l.flag, b); }
      ObjKept(w, l.i, l.flag);
      BorrowKept(w, l.i, l.flag);
      forall b: BoxId ensures TableAt(Apply(w, l), b) { TableKept(w, l.i, l.flag, b); }
      EndKept(w, l.i, l.flag);
      BuilderKept(w, l.i, l.flag);
    } else {
      if InPlace(l) { UserCountInPlace(w, l); } else { UserCountAppend(w, l); }
      forall b: BoxId ensures BoxAt(Apply(w, l), b) {
        assert BoxAt(w, b);
        if InPlace(l) { UserBoxInPlace(w, l, b); } else { UserBoxAppend(w, l, b); }
      }
      UserObj(w, l);
      UserBorrow(w, l);
      forall b: BoxId ensures TableAt(Apply(w, l), b) { UserTable(w, l, b); }
      EndUser(w, l);
      BuilderUser(w, l);
    }
  }

  lemma {:induction false} RunKeepsInv(w: World, ls: seq<Label>)
    requires Inv(w) && Legal(w, ls)
    ensures Inv(Exec(w, ls))
    decreases |ls|
  {
    if ls != [] {
      InvKept(w, ls[0]);
      RunKeepsInv(Apply(w, ls[0]), ls[1..]);
    }
  }

  lemma ReachableInv(w: World)
    requires Reachable(w)
    ensures Inv(w)
  {
    var ls :| Legal(Init(), ls) && Exec(Init(), ls) == w;
    InitInv();
    RunKeepsInv(Init(), ls);
  }
}
