/**
 * The inductive invariant of the callback slot protocol: who holds which lock, what
 * every reference count counts, and how the registration with libmpv follows the cell.
 */
module SlotInvariant {
  import opened Common
  import opened SlotSteps

  // ----- what an activity holds -----

  predicate Holds(a: Act, l: LockId) {
    match a
    case Setting(pc, _, _, _) =>
      (match l
       case Registration => !pc.AskReg? && !pc.DropPrevious? && !pc.FreePrevious?
       case Dispatch => pc.StoreCallback? || pc.InRegister?
       case Slot => pc.Replace? || pc.LeaveSlot?)
    case Tearing(pc, _, _) =>
      (match l
       case Registration => pc.TdAskDispatch? || pc.TdUnregister? || pc.TdAskSlot? || pc.TdTake? || pc.TdLeaveReg?
       case Dispatch => pc.TdUnregister?
       case Slot => pc.TdTake? || pc.TdLeaveReg? || pc.TdLeaveSlot?)
    case Dispatching(pc, mode, _) =>
      (match l
       case Registration => false
       case Dispatch => mode.Locked? && !pc.AwaitDispatch?
       case Slot => pc.Clone? || pc.LeaveClone?)
    case Done => false
  }

  /** The closure of which this activity holds a counted handle. */
  function Held(a: Act): Option<nat> {
    match a
    case Setting(pc, _, prev, _) =>
      if pc.LeaveSlot? || pc.AskDispatch? || pc.StoreCallback? || pc.InRegister? || pc.LeaveReg? || pc.DropPrevious?
      then prev else None
    case Tearing(pc, _, taken) =>
      if pc.TdLeaveReg? || pc.TdLeaveSlot? || pc.TdDestroy? || pc.TdDropTaken? then taken else None
    case Dispatching(pc, _, got) =>
      if pc.LeaveClone? || pc.Call? || pc.Invoking? || pc.DropClone? then got else None
    case Done => None
  }

  /** The closure this activity has to itself: not yet in an `Arc`, or being destroyed. */
  function Sole(a: Act): Option<nat> {
    match a
    case Setting(pc, c, prev, _) =>
      if pc.AskReg? || pc.CheckLeaked? || pc.MarkLeaked? || pc.AskSlot? || pc.Replace? then Some(c)
      else if pc.FreePrevious? then prev else None
    case Tearing(pc, _, taken) => if pc.TdFreeTaken? then taken else None
    case Dispatching(pc, _, got) => if pc.FreeClone? then got else None
    case Done => None
  }

  /** Upper bound on the steps an activity still has to take. */
  function Work(a: Act): nat {
    match a
    case Setting(pc, _, _, _) =>
      (match pc
       case AskReg => 12 case CheckLeaked => 11 case MarkLeaked => 10 case AskSlot => 9
       case Replace => 8 case LeaveSlot => 7 case AskDispatch => 6 case StoreCallback => 5
       case InRegister => 4 case LeaveReg => 3 case DropPrevious => 2 case FreePrevious => 1)
    case Tearing(pc, _, _) =>
      (match pc
       case TdAskReg => 11 case TdAskDispatch => 10 case TdUnregister => 9 case TdAskSlot => 8
       case TdTake => 7 case TdLeaveReg => 6 case TdLeaveSlot => 5 case TdDestroy => 4
       case TdDropTaken => 3 case TdFreeTaken => 2 case TdEnd => 1)
    case Dispatching(pc, _, _) =>
      (match pc
       case AwaitDispatch => 9 case Enter => 8 case Clone => 7 case LeaveClone => 6
       case Call => 5 case Invoking => 4 case DropClone => 3 case FreeClone => 2 case Return => 1)
    case Done => 0
  }

  // ----- sums over activities -----

  datatype Kind = Handles(c: nat) | Solely(c: nat) | Leaking | Remaining

  function Weight(a: Act, k: Kind): nat {
    match k
    case Handles(c) => Bit(Held(a) == Some(c))
    case Solely(c) => Bit(Sole(a) == Some(c))
    case Leaking => Bit(a.Setting? && a.pc.MarkLeaked?)
    case Remaining => Work(a)
  }

  function Sum(acts: seq<Act>, k: Kind): nat {
    if acts == [] then 0 else Sum(acts[..|acts| - 1], k) + Weight(acts[|acts| - 1], k)
  }

  lemma {:induction false} SumAppend(acts: seq<Act>, a: Act, k: Kind)
    ensures Sum(acts + [a], k) == Sum(acts, k) + Weight(a, k)
  {
    assert (acts + [a])[..|acts|] == acts;
  }

  lemma {:induction false} SumUpdate(acts: seq<Act>, i: nat, a: Act, k: Kind)
    requires i < |acts|
    ensures Sum(acts[i := a], k) == Sum(acts, k) - Weight(acts[i], k) + Weight(a, k)
    ensures Sum(acts, k) >= Weight(acts[i], k)
  {
    var n := |acts| - 1;
    if i == n {
      assert acts[i := a][..n] == acts[..n];
    } else {
      SumUpdate(acts[..n], i, a, k);
      assert acts[i := a][..n] == acts[..n][i := a];
    }
  }

  // ----- the invariant, point by point -----

  /** Facts about one program point that its arguments always satisfy. */
  predicate Shaped(a: Act) {
    match a
    case Setting(pc, _, prev, child) =>
      && (pc.FreePrevious? ==> prev.Some?)
    case Tearing(pc, _, taken) =>
      && (pc.TdFreeTaken? ==> taken.Some?)
    case Dispatching(pc, mode, got) =>
      && (pc.AwaitDispatch? ==> mode.Locked?)
      && (pc.Call? || pc.Invoking? || pc.DropClone? || pc.FreeClone? ==> got.Some?)
    case Done => true
  }

  predicate LockAt(locks: map<LockId, nat>, a: Act, i: nat, l: LockId) {
    Holds(a, l) <==> l in locks && locks[l] == i
  }

  ghost predicate LockInv(s: State) {
    && (forall l :: l in s.locks ==> s.locks[l] < |s.acts|)
    && (forall i :: 0 <= i < |s.acts| ==> Shaped(s.acts[i]))
    && (forall i, l :: 0 <= i < |s.acts| ==> LockAt(s.locks, s.acts[i], i, l))
  }

  /** Every count is exact, and every closure is in exactly one stage of its life:
      owned by value, reference-counted, being destroyed, or destroyed. */
  predicate CountAt(s: State, c: nat) {
    && Strong(s.closures, c) == Bit(s.sh.cell == Some(c)) + Sum(s.acts, Handles(c))
    && Sum(s.acts, Solely(c)) + Bit(Strong(s.closures, c) > 0) + Drops(s.closures, c) == Bit(c < |s.closures|)
    && Drops(s.closures, c) >= 0
  }

  ghost predicate CountInv(s: State) {
    forall c: nat :: CountAt(s, c)
  }

  predicate LeakAt(sh: Shared, a: Act) {
    match a
    case Setting(pc, _, _, _) =>
      && (pc.MarkLeaked? ==> !sh.leaked)
      && (pc.AskSlot? || pc.Replace? || pc.LeaveSlot? || pc.AskDispatch? || pc.StoreCallback? ==> sh.leaked)
      && (pc.InRegister? ==> sh.ctxKnown)
    case Tearing(_, _, _) => true
    case Dispatching(_, _, _) => sh.ctxKnown
    case Done => true
  }

  ghost predicate LeakInv(s: State) {
    && s.sh.slotRefs == Bit(!s.sh.owner.Gone?) + Bit(s.sh.leaked) + Sum(s.acts, Leaking)
    && (s.sh.ctxKnown ==> s.sh.leaked)
    && (forall i :: 0 <= i < |s.acts| ==> LeakAt(s.sh, s.acts[i]))
  }

  predicate IsFinal(a: Act) {
    a.Tearing? && a.final
  }

  predicate PastTake(pc: TdPc) {
    pc.TdLeaveReg? || pc.TdLeaveSlot? || pc.TdDestroy? || pc.TdDropTaken? || pc.TdFreeTaken? || pc.TdEnd?
  }

  predicate OwnerAt(sh: Shared, a: Act) {
    match a
    case Setting(_, _, _, _) => sh.owner.Alive?
    case Tearing(pc, final, _) =>
      && (if final then sh.owner.Dropping? else sh.owner.Alive?)
      && (final && PastTake(pc) ==> sh.cell.None? && !sh.registered)
      && (final && (pc.TdDropTaken? || pc.TdFreeTaken? || pc.TdEnd?) ==> sh.destroyed)
    case Dispatching(_, _, _) => true
    case Done => true
  }

  ghost predicate OwnerInv(s: State) {
    && (forall i :: 0 <= i < |s.acts| ==> OwnerAt(s.sh, s.acts[i]))
    && (forall i, j :: 0 <= i < |s.acts| && 0 <= j < |s.acts| && IsFinal(s.acts[i]) && IsFinal(s.acts[j]) ==> i == j)
    && (s.sh.owner.Dropping? ==> exists i :: 0 <= i < |s.acts| && IsFinal(s.acts[i]))
    && (s.sh.owner.Gone? ==> s.sh.cell.None? && !s.sh.registered && s.sh.destroyed)
    && (s.sh.destroyed ==> !s.sh.owner.Alive?)
  }

  /** What the operations of `log`, run one after the other, leave in the cell. */
  function Expected(log: seq<Op>): Option<nat> {
    if log == [] || log[|log| - 1].TeardownOp? then None else Some(log[|log| - 1].c)
  }

  /** Cell and registration agree with each other and with the operations of `log`. */
  predicate Settled(sh: Shared, log: seq<Op>) {
    sh.cell == Expected(log) && sh.registered == sh.cell.Some?
  }

  /** Cell and registration, given the point reached by the holder of the registration lock. */
  predicate RegAt(sh: Shared, holder: Act) {
    var n := |sh.log| - 1;
    n >= 0 &&
    match holder
    case Setting(pc, c, prev, _) =>
      && sh.log[n] == SetOp(c)
      && (match pc
          case CheckLeaked => Settled(sh, sh.log[..n])
          case MarkLeaked => Settled(sh, sh.log[..n])
          case AskSlot => Settled(sh, sh.log[..n])
          case Replace => Settled(sh, sh.log[..n])
          case LeaveSlot => sh.cell == Some(c) && sh.registered == prev.Some?
          case AskDispatch => sh.cell == Some(c) && sh.registered == prev.Some?
          case StoreCallback => sh.cell == Some(c) && sh.registered == prev.Some?
          case InRegister => sh.cell == Some(c) && sh.registered
          case LeaveReg => sh.cell == Some(c) && sh.registered
          case _ => false)
    case Tearing(pc, _, _) =>
      && sh.log[n] == TeardownOp
      && (match pc
          case TdAskDispatch => Settled(sh, sh.log[..n])
          case TdUnregister => Settled(sh, sh.log[..n])
          case TdAskSlot => sh.cell == Expected(sh.log[..n]) && !sh.registered
          case TdTake => sh.cell == Expected(sh.log[..n]) && !sh.registered
          case TdLeaveReg => sh.cell.None? && !sh.registered
          case _ => false)
    case Dispatching(_, _, _) => false
    case Done => false
  }

  ghost predicate RegInv(s: State) {
    if Registration in s.locks
    then s.locks[Registration] < |s.acts| && RegAt(s.sh, s.acts[s.locks[Registration]])
    else Settled(s.sh, s.sh.log)
  }

  /** A synchronous dispatch inside a registration call never needs libmpv's lock again. */
  predicate NestAt(acts: seq<Act>, a: Act) {
    a.Setting? && a.child.Some? ==>
      a.child.value < |acts| &&
      var b := acts[a.child.value];
      b.Done? || (b.Dispatching? && b.mode.Nested?)
  }

  /** Activity p is the registration call inside which dispatch i runs. */
  predicate Parent(acts: seq<Act>, p: nat, i: nat) {
    p < |acts| && acts[p].Setting? && acts[p].pc.InRegister? && acts[p].child == Some(i)
  }

  ghost predicate NestInv(s: State) {
    && (forall i :: 0 <= i < |s.acts| ==> NestAt(s.acts, s.acts[i]))
    && (forall i :: 0 <= i < |s.acts| && s.acts[i].Dispatching? && s.acts[i].mode.Nested? ==>
          exists p :: Parent(s.acts, p, i))
  }

  ghost predicate Inv(s: State) {
    LockInv(s) && CountInv(s) && LeakInv(s) && OwnerInv(s) && RegInv(s) && NestInv(s)
  }

  lemma InitInv()
    ensures Inv(Init())
  {
  }

  // ----- locks -----

  /** The lock operation at a point is exactly the difference it makes to what is held. */
  lemma HoldsFollows(sh: Shared, last: bool, a: Act, l: LockId)
    requires Shaped(a)
    ensures Shaped(Next(sh, last, a))
    ensures Holds(Next(sh, last, a), l) == (if LockOf(a) == Take(l) then true
                                            else if LockOf(a) == Give(l) then false
                                            else Holds(a, l))
    ensures LockOf(a) == Give(l) ==> Holds(a, l)
  {
    match a
    case Setting(_, _, _, _) =>
    case Tearing(_, _, _) =>
    case Dispatching(_, _, _) =>
    case Done =>
  }

  lemma LockKept(s: State, i: nat)
    requires LockInv(s) && i < |s.acts| && CanAdvance(s, s.acts[i])
    ensures LockInv(AdvanceBy(s, i))
  {
    var t := AdvanceBy(s, i);
    var x := RefOf(s.sh.cell, s.acts[i]);
    HoldsFollows(s.sh, ReachesZero(s.closures, x), s.acts[i], Slot);
    forall j, l | 0 <= j < |t.acts| ensures LockAt(t.locks, t.acts[j], j, l) {
      HoldsFollows(s.sh, ReachesZero(s.closures, x), s.acts[i], l);
      assert LockAt(s.locks, s.acts[j], j, l) && LockAt(s.locks, s.acts[i], i, l);
    }
  }

  /** No two activities hold the same lock. */
  lemma Exclusive(s: State, i: nat, j: nat, l: LockId)
    requires LockInv(s) && i < |s.acts| && j < |s.acts| && Holds(s.acts[i], l) && Holds(s.acts[j], l)
    ensures i == j
  {
    assert LockAt(s.locks, s.acts[i], i, l) && LockAt(s.locks, s.acts[j], j, l);
  }

  // ----- reference counts -----

  /** The reference count operation at a point is exactly the difference the step makes to
      the handles held by the cell and by the activity ... */
  lemma HandlesFollow(sh: Shared, last: bool, a: Act, c: nat)
    requires Shaped(a)
    ensures var x := RefOf(sh.cell, a);
            Bit(Held(Next(sh, last, a)) == Some(c)) + Bit(Effect(sh, a).cell == Some(c))
            == Bit(Held(a) == Some(c)) + Bit(sh.cell == Some(c))
               + Bit(x == Inc(c)) + Bit(x == New(c)) - Bit(x == Dec(c))
  {
    match a
    case Setting(_, _, _, _) => SettingHandles(sh, last, a, c);
    case Tearing(_, _, _) =>
    case Dispatching(_, _, _) =>
    case Done =>
  }

  lemma SettingHandles(sh: Shared, last: bool, a: Act, c: nat)
    requires Shaped(a) && a.Setting?
    ensures var x := RefOf(sh.cell, a);
            Bit(Held(Next(sh, last, a)) == Some(c)) + Bit(Effect(sh, a).cell == Some(c))
            == Bit(Held(a) == Some(c)) + Bit(sh.cell == Some(c)) + Bit(x == New(c)) - Bit(x == Dec(c))
    ensures !RefOf(sh.cell, a).Inc?
  {
  }

  /** ... and to the closure the activity has to itself. */
  lemma SoleFollows(sh: Shared, last: bool, a: Act, c: nat)
    requires Shaped(a)
    ensures var x := RefOf(sh.cell, a);
            Bit(Sole(Next(sh, last, a)) == Some(c))
            == Bit(Sole(a) == Some(c)) - Bit(x == New(c)) - Bit(x == Free(c)) + Bit(x == Dec(c) && last)
  {
    match a
    case Setting(_, _, _, _) =>
    case Tearing(_, _, _) =>
    case Dispatching(_, _, _) =>
    case Done =>
  }

  lemma CountKept(s: State, i: nat, c: nat)
    requires LockInv(s) && CountAt(s, c) && i < |s.acts| && CanAdvance(s, s.acts[i])
    ensures CountAt(AdvanceBy(s, i), c)
  {
    var t := AdvanceBy(s, i);
    var x := RefOf(s.sh.cell, s.acts[i]);
    HandlesFollow(s.sh, ReachesZero(s.closures, x), s.acts[i], c);
    SoleFollows(s.sh, ReachesZero(s.closures, x), s.acts[i], c);
    SumUpdate(s.acts, i, t.acts[i], Handles(c));
    SumUpdate(s.acts, i, t.acts[i], Solely(c));
    assert Strong(t.closures, c) == Strong(s.closures, c)
             + (if x == Inc(c) then 1 else if x == Dec(c) then -1
                else if x == New(c) then 1 - Strong(s.closures, c) else 0);
    assert Drops(t.closures, c) == Drops(s.closures, c) + Bit(x == Free(c));
  }

  // ----- the leaked slot reference -----

  /** One step of `a` seen from `a` itself and from any other activity `b`. */
  lemma LeakFollows(sh: Shared, last: bool, a: Act, b: Act)
    requires LeakAt(sh, a) && LeakAt(sh, b) && (sh.ctxKnown ==> sh.leaked)
    requires !(Holds(a, Registration) && Holds(b, Registration))
    ensures LeakAt(Effect(sh, a), Next(sh, last, a)) && LeakAt(Effect(sh, a), b)
    ensures Effect(sh, a).ctxKnown ==> Effect(sh, a).leaked
  {
    match a
    case Setting(_, _, _, _) =>
    case Tearing(_, _, _) =>
    case Dispatching(_, _, _) =>
    case Done =>
  }

  lemma LeakKept(s: State, i: nat)
    requires LockInv(s) && LeakInv(s) && OwnerInv(s) && i < |s.acts| && CanAdvance(s, s.acts[i])
    ensures LeakInv(AdvanceBy(s, i))
  {
    LeakKeptShared(s, i);
    var t := AdvanceBy(s, i);
    forall j | 0 <= j < |t.acts| ensures LeakAt(t.sh, t.acts[j]) { LeakKeptAt(s, i, j); }
    hide AdvanceBy, Sum, LeakAt, Weight, LockInv, OwnerInv;
  }

  /** The slot's count, and what libmpv's knowing the pointer implies. */
  lemma LeakKeptShared(s: State, i: nat)
    requires LeakInv(s) && OwnerInv(s) && i < |s.acts| && CanAdvance(s, s.acts[i])
    ensures var t := AdvanceBy(s, i);
            && t.sh.slotRefs == Bit(!t.sh.owner.Gone?) + Bit(t.sh.leaked) + Sum(t.acts, Leaking)
            && (t.sh.ctxKnown ==> t.sh.leaked)
  {
    var last := ReachesZero(s.closures, RefOf(s.sh.cell, s.acts[i]));
    var next := Next(s.sh, last, s.acts[i]);
    assert LeakAt(s.sh, s.acts[i]) && OwnerAt(s.sh, s.acts[i]);
    LeakFollows(s.sh, last, s.acts[i], Done);
    SumUpdate(s.acts, i, next, Leaking);
    LeakBalance(s.sh, last, s.acts[i]);
    hide Sum, LeakAt, OwnerAt, Weight, Next, Effect, CanAdvance;
  }

  lemma LeakBalance(sh: Shared, last: bool, a: Act)
    requires LeakAt(sh, a) && OwnerAt(sh, a)
    ensures var t := Effect(sh, a);
            t.slotRefs - Bit(!t.owner.Gone?) - Bit(t.leaked) - Weight(Next(sh, last, a), Leaking)
            == sh.slotRefs - Bit(!sh.owner.Gone?) - Bit(sh.leaked) - Weight(a, Leaking)
  {
    match a
    case Setting(_, _, _, _) =>
    case Tearing(_, _, _) =>
    case _ =>
  }

  lemma LeakKeptAt(s: State, i: nat, j: nat)
    requires LockInv(s) && LeakInv(s) && i < |s.acts| && CanAdvance(s, s.acts[i]) && j < |s.acts|
    ensures LeakAt(AdvanceBy(s, i).sh, AdvanceBy(s, i).acts[j])
  {
    var last := ReachesZero(s.closures, RefOf(s.sh.cell, s.acts[i]));
    assert LeakAt(s.sh, s.acts[i]) && LeakAt(s.sh, s.acts[j]);
    if j == i {
      LeakFollows(s.sh, last, s.acts[i], Done);
    } else {
      if Holds(s.acts[i], Registration) && Holds(s.acts[j], Registration) { Exclusive(s, i, j, Registration); }
      LeakFollows(s.sh, last, s.acts[i], s.acts[j]);
    }
    hide LeakAt, Next, Effect, CanAdvance, Holds, LockInv;
  }

  // ----- the owner -----

  lemma OwnerFollows(sh: Shared, last: bool, a: Act, b: Act)
    requires OwnerAt(sh, a) && OwnerAt(sh, b) && !(IsFinal(a) && IsFinal(b))
    ensures OwnerAt(Effect(sh, a), b)
  {
    match a
    case Setting(_, _, _, _) =>
    case Tearing(_, _, _) =>
    case Dispatching(_, _, _) =>
    case Done =>
  }

  lemma OwnerOwn(sh: Shared, last: bool, a: Act)
    requires OwnerAt(sh, a) && (Holds(a, Registration) ==> RegAt(sh, a))
    ensures OwnerAt(Effect(sh, a), Next(sh, last, a))
    ensures Effect(sh, a).owner != sh.owner ==> IsFinal(a) && Next(sh, last, a).Done? && Effect(sh, a).owner.Gone?
    ensures IsFinal(Next(sh, last, a)) ==> IsFinal(a)
    ensures IsFinal(a) ==> IsFinal(Next(sh, last, a)) || Effect(sh, a).owner.Gone?
    ensures sh.owner.Gone? ==> Effect(sh, a) == sh
    ensures Effect(sh, a).destroyed && !sh.destroyed ==> IsFinal(a)
    ensures Effect(sh, a).owner.Gone? && !sh.owner.Gone? ==> sh.cell.None? && !sh.registered && sh.destroyed
    ensures Effect(sh, a).owner.Gone? && !sh.owner.Gone? ==> Effect(sh, a).cell.None? && !Effect(sh, a).registered
  {
    match a
    case Setting(_, _, _, _) =>
    case Tearing(_, _, _) =>
    case Dispatching(_, _, _) =>
    case Done =>
  }

  lemma OwnerKept(s: State, i: nat)
    requires LockInv(s) && OwnerInv(s) && RegInv(s) && i < |s.acts| && CanAdvance(s, s.acts[i])
    ensures OwnerInv(AdvanceBy(s, i))
  {
    var t := AdvanceBy(s, i);
    var last := ReachesZero(s.closures, RefOf(s.sh.cell, s.acts[i]));
    assert LockAt(s.locks, s.acts[i], i, Registration) && OwnerAt(s.sh, s.acts[i]);
    OwnerOwn(s.sh, last, s.acts[i]);
    forall j | 0 <= j < |t.acts| ensures OwnerAt(t.sh, t.acts[j]) {
      if j != i { OwnerFollows(s.sh, last, s.acts[i], s.acts[j]); }
    }
    if t.sh.owner.Dropping? {
      var j :| 0 <= j < |s.acts| && IsFinal(s.acts[j]);
      assert IsFinal(t.acts[j]);
    }
  }

  // ----- registration -----

  lemma RegFollows(sh: Shared, last: bool, a: Act)
    requires if LockOf(a) == Take(Registration) then Settled(sh, sh.log)
             else Holds(a, Registration) ==> RegAt(sh, a)
    ensures var u := Effect(sh, a);
            if LockOf(a) == Take(Registration) || (Holds(a, Registration) && LockOf(a) != Give(Registration))
            then RegAt(u, Next(sh, last, a))
            else if LockOf(a) == Give(Registration) then Settled(u, u.log)
            else u.cell == sh.cell && u.registered == sh.registered && u.log == sh.log
  {
    var u := Effect(sh, a);
    assert LockOf(a) == Take(Registration) ==> u.log[..|u.log| - 1] == sh.log;
    match a
    case Setting(_, _, _, _) =>
    case Tearing(_, _, _) =>
    case Dispatching(_, _, _) =>
    case Done =>
  }

  lemma RegKept(s: State, i: nat)
    requires LockInv(s) && RegInv(s) && i < |s.acts| && CanAdvance(s, s.acts[i])
    ensures RegInv(AdvanceBy(s, i))
  {
    var last := ReachesZero(s.closures, RefOf(s.sh.cell, s.acts[i]));
    assert LockAt(s.locks, s.acts[i], i, Registration);
    RegFollows(s.sh, last, s.acts[i]);
    HoldsFollows(s.sh, last, s.acts[i], Registration);
  }

  // ----- synchronous dispatch -----

  lemma NestFollows(sh: Shared, last: bool, a: Act)
    ensures var b := Next(sh, last, a);
            && (b.Setting? ==> a.Setting? && (b.child.Some? ==> b.child == a.child))
            && (b.Done? || b.Dispatching? || b.Setting? || b.Tearing?)
            && (a.Dispatching? ==> b.Done? || (b.Dispatching? && b.mode == a.mode))
            && (a.Done? ==> b.Done?)
  {
  }

  lemma NestKept(s: State, i: nat)
    requires NestInv(s) && i < |s.acts| && CanAdvance(s, s.acts[i])
    ensures NestInv(AdvanceBy(s, i))
  {
    var t := AdvanceBy(s, i);
    NestFollows(s.sh, ReachesZero(s.closures, RefOf(s.sh.cell, s.acts[i])), s.acts[i]);
    forall j | 0 <= j < |t.acts| ensures NestAt(t.acts, t.acts[j]) {
      assert NestAt(s.acts, s.acts[j]);
    }
    forall j | 0 <= j < |t.acts| && t.acts[j].Dispatching? && t.acts[j].mode.Nested?
      ensures exists p :: Parent(t.acts, p, j)
    {
      var p :| Parent(s.acts, p, j);
      assert Parent(t.acts, p, j);
    }
  }

  // ----- new activities -----

  /** A new activity is appended; a registration call that starts a dispatch remembers it. */
  lemma SpawnShape(s: State, l: Label)
    requires Enabled(s, l) && !l.Advance?
    ensures var t := Apply(s, l);
            && |t.acts| == |s.acts| + 1
            && t.acts[..|s.acts|] == (if l.StartNested? then s.acts[l.parent := t.acts[l.parent]] else s.acts)
            && (l.StartNested? ==>
                  && l.parent < |s.acts| && forall k :: Weight(t.acts[l.parent], k) == Weight(s.acts[l.parent], k))
  {
  }

  lemma SpawnSum(s: State, l: Label, k: Kind)
    requires Enabled(s, l) && !l.Advance?
    ensures var t := Apply(s, l); t.acts != [] && Sum(t.acts, k) == Sum(s.acts, k) + Weight(t.acts[|t.acts| - 1], k)
  {
    SpawnShape(s, l);
    var t := Apply(s, l);
    hide Apply, Enabled, Weight;
    if l.StartNested? { SumUpdate(s.acts, l.parent, t.acts[l.parent], k); }
  }

  /** A new set has its closure to itself; other new activities hold nothing. */
  lemma SpawnHolds(s: State, l: Label, c: nat)
    requires Enabled(s, l) && !l.Advance?
    ensures var t := Apply(s, l);
            && t.acts != [] && Weight(t.acts[|t.acts| - 1], Handles(c)) == 0
            && Weight(t.acts[|t.acts| - 1], Solely(c)) == Bit(l.StartSet? && c == |s.closures|)
            && t.closures == s.closures + (if l.StartSet? then [Closure(0, 0)] else [])
            && t.sh.cell == s.sh.cell
  {
  }

  lemma CountSpawn(s: State, l: Label, c: nat)
    requires CountInv(s) && Enabled(s, l) && !l.Advance?
    ensures CountAt(Apply(s, l), c)
  {
    assert CountAt(s, c);
    SpawnHolds(s, l, c);
    SpawnSum(s, l, Handles(c));
    SpawnSum(s, l, Solely(c));
    hide Apply, Enabled, Weight, Sum, CountInv;
  }

  lemma LockSpawn(s: State, l: Label)
    requires LockInv(s) && Enabled(s, l) && !l.Advance?
    ensures LockInv(Apply(s, l))
  {
    var t := Apply(s, l);
    forall j, k | 0 <= j < |t.acts| ensures LockAt(t.locks, t.acts[j], j, k) {
      if j < |s.acts| { assert LockAt(s.locks, s.acts[j], j, k); }
    }
  }

  lemma LeakSpawn(s: State, l: Label)
    requires LeakInv(s) && Enabled(s, l) && !l.Advance?
    ensures LeakInv(Apply(s, l))
  {
    hide Apply, Enabled, Sum, LeakAt, Weight;
    LeakSpawnShared(s, l);
    var t := Apply(s, l);
    forall j | 0 <= j < |t.acts| ensures LeakAt(t.sh, t.acts[j]) { LeakSpawnAt(s, l, j); }
  }

  lemma LeakSpawnShared(s: State, l: Label)
    requires Enabled(s, l) && !l.Advance?
    ensures var t := Apply(s, l);
            && t.sh.slotRefs == s.sh.slotRefs && t.sh.leaked == s.sh.leaked && t.sh.ctxKnown == s.sh.ctxKnown
            && t.sh.owner.Gone? == s.sh.owner.Gone? && Sum(t.acts, Leaking) == Sum(s.acts, Leaking)
  {
    SpawnSum(s, l, Leaking);
  }

  lemma LeakSpawnAt(s: State, l: Label, j: nat)
    requires LeakInv(s) && Enabled(s, l) && !l.Advance? && j < |Apply(s, l).acts|
    ensures LeakAt(Apply(s, l).sh, Apply(s, l).acts[j])
  {
    if j < |s.acts| { assert LeakAt(s.sh, s.acts[j]); }
    if l.StartNested? { assert LeakAt(s.sh, s.acts[l.parent]); }
  }

  lemma OwnerSpawn(s: State, l: Label)
    requires OwnerInv(s) && Enabled(s, l) && !l.Advance?
    ensures OwnerInv(Apply(s, l))
  {
    var t := Apply(s, l);
    forall j | 0 <= j < |t.acts| ensures OwnerAt(t.sh, t.acts[j]) {
      if j < |s.acts| { assert OwnerAt(s.sh, s.acts[j]); }
    }
    if t.sh.owner.Dropping? {
      if s.sh.owner.Dropping? {
        var j :| 0 <= j < |s.acts| && IsFinal(s.acts[j]);
        assert IsFinal(t.acts[j]);
      } else {
        assert IsFinal(t.acts[|s.acts|]);
      }
    }
  }

  lemma NestSpawn(s: State, l: Label)
    requires NestInv(s) && Enabled(s, l) && !l.Advance?
    ensures NestInv(Apply(s, l))
  {
    var t := Apply(s, l);
    forall j | 0 <= j < |t.acts| ensures NestAt(t.acts, t.acts[j]) {
      if j < |s.acts| { assert NestAt(s.acts, s.acts[j]); }
    }
    forall j | 0 <= j < |t.acts| && t.acts[j].Dispatching? && t.acts[j].mode.Nested?
      ensures exists p :: Parent(t.acts, p, j)
    {
      if j < |s.acts| {
        var p :| Parent(s.acts, p, j);
        assert Parent(t.acts, p, j);
      } else {
        assert Parent(t.acts, l.parent, j);
      }
    }
  }

  // ----- every step, every run -----

  lemma InvKept(s: State, l: Label)
    requires Inv(s) && Enabled(s, l)
    ensures Inv(Apply(s, l))
  {
    hide AdvanceBy, CountAt, LeakInv, OwnerInv, NestInv;
    if l.Advance? {
      LockKept(s, l.i);
      forall c: nat ensures CountAt(Apply(s, l), c) { assert CountAt(s, c); CountKept(s, l.i, c); }
      LeakKept(s, l.i);
      OwnerKept(s, l.i);
      RegKept(s, l.i);
      NestKept(s, l.i);
    } else {
      LockSpawn(s, l);
      forall c: nat ensures CountAt(Apply(s, l), c) { CountSpawn(s, l, c); }
      LeakSpawn(s, l);
      OwnerSpawn(s, l);
      NestSpawn(s, l);
    }
  }

  lemma {:induction false} RunKeepsInv(s: State, ls: seq<Label>)
    requires Inv(s) && Legal(s, ls)
    ensures Inv(Exec(s, ls))
    decreases |ls|
  {
    if ls != [] {
      InvKept(s, ls[0]);
      RunKeepsInv(Apply(s, ls[0]), ls[1..]);
    }
  }

  lemma ReachableInv(s: State)
    requires Reachable(s)
    ensures Inv(s)
  {
    var ls :| Legal(Init(), ls) && Exec(Init(), ls) == s;
    InitInv();
    RunKeepsInv(Init(), ls);
  }
}
