/**
 * Ownership and teardown order of the whole crate as a step system: builder, Arc<Mpv>
 * handles, render contexts that co-own the player, protocol registrations, and the
 * destructors that take them all down (rsmpv/src/lib.rs, render.rs, stream_cb.rs,
 * escaped.rs).
 *
 * Every value is an object at some point of its life; drops of different objects
 * interleave freely.  A Drop body runs first and the fields are dropped after it; a panic
 * in user code leaves the rest of the body but not the field drops, and a second panic
 * while unwinding aborts the run.
 */
module OwnershipSteps {
  import opened Common

  /** A boxed user closure (get_proc_address, open function, callback), by number. */
  type BoxId = nat

  // ----- objects -----

  datatype HandlePc = Held | Dropping

  /** RenderContext<Arc<Mpv>>: the body of RenderInner's Drop (unregister, take, free,
      drop the update closure), then the field _get_proc_address, then the field core. */
  datatype ContextPc = Live | CUnregister | CTake | CFree | CDropUpdate | CFreeGpa | CDropCore | CGone

  /** What a failed construction still has to drop. */
  datatype FailedPc = FFreeGpa | FDropCore

  /** Drop of Mpv or Builder: the body (unregister, take, terminate, drop the wakeup
      closure), then the field protocols, one box after the other. */
  datatype CorePc = MUnregister | MTake | MTerminate | MDropWakeup | MFreeProtocols

  datatype RegistrationPc = RAdd | RPush | RFree

  datatype Obj =
    | Handle(hpc: HandlePc, unwinding: bool)
    | Context(cpc: ContextPc, gpa: Option<BoxId>, update: Option<BoxId>, freeCalls: int, unwinding: bool)
    | Failed(fpc: FailedPc, gpa: Option<BoxId>, unwinding: bool)
    | Core(mpc: CorePc, unwinding: bool)
    | Registration(rpc: RegistrationPc, box: BoxId, unwinding: bool)
    | Releasing(box: BoxId, unwinding: bool)
    | Done

  datatype Shared = Shared(
    building: bool,              // the handle is still a Builder
    strong: int,                 // strong count of the Arc<Mpv>
    terminations: int,           // mpv_terminate_destroy calls on the handle
    wakeup: Option<BoxId>,       // closure in the handle's wakeup slot
    registry: seq<BoxId>,        // Mpv.protocols
    table: set<BoxId>,           // open-function pointers registered with libmpv
    leaked: set<BoxId>,          // boxes given up with mem::forget
    aborted: bool)

  /** `frees[b]` counts how often box b has been freed; `holds[b]`: its closure captured an
      Arc of this very player. */
  datatype World = World(sh: Shared, frees: seq<int>, holds: seq<bool>, objs: seq<Obj>)

  /** After a successful mpv_create: a Builder. */
  function Init(): World {
    World(Shared(true, 0, 0, None, [], {}, {}, false), [], [], [])
  }

  // ----- what one step does -----

  /** The box whose destructor (user code) runs at this point. */
  function FreedAt(sh: Shared, o: Obj): Option<BoxId> {
    match o
    case Handle(_, _) => None
    case Context(pc, gpa, update, _, _) =>
      if pc.CDropUpdate? then update else if pc.CFreeGpa? then gpa else None
    case Failed(pc, gpa, _) => if pc.FFreeGpa? then gpa else None
    case Core(pc, _) =>
      if pc.MDropWakeup? then sh.wakeup
      else if pc.MFreeProtocols? && sh.registry != [] then Some(sh.registry[0])
      else None
    case Registration(pc, b, _) => if pc.RFree? then Some(b) else None
    case Releasing(b, _) => Some(b)
    case Done => None
  }

  predicate DropsArc(o: Obj) {
    (o.Handle? && o.hpc.Dropping?) || (o.Context? && o.cpc.CDropCore?) || (o.Failed? && o.fpc.FDropCore?)
  }

  /** `refused`: at RAdd, libmpv rejects the registration and does not keep the pointer. */
  function Effect(sh: Shared, o: Obj, refused: bool): Shared {
    if DropsArc(o) then sh.(strong := sh.strong - 1)
    else
      match o
      case Core(pc, _) =>
        (match pc
         case MTerminate => sh.(terminations := sh.terminations + 1)
         case MDropWakeup => sh.(wakeup := None)
         case MFreeProtocols => if sh.registry == [] then sh else sh.(registry := sh.registry[1..])
         case _ => sh)
      case Registration(pc, b, _) =>
        if pc.RAdd? && !refused then sh.(table := sh.table + {b})
        else if pc.RPush? then sh.(registry := sh.registry + [b])
        else sh
      case _ => sh
  }

  /** Where unwinding resumes: the first field drop after this point. */
  function FieldDropC(pc: ContextPc): ContextPc {
    if pc.CFreeGpa? || pc.CDropCore? then CDropCore else CFreeGpa
  }

  function Next(sh: Shared, o: Obj, flag: bool): Obj {
    var panicked := flag && FreedAt(sh, o).Some?;
    match o
    case Handle(pc, _) => if pc.Held? then o else Done
    case Context(pc, gpa, update, n, u) =>
      (match pc
       case Live => o
       case CUnregister => o.(cpc := CTake)
       case CTake => o.(cpc := CFree)
       case CFree => o.(cpc := CDropUpdate, freeCalls := n + 1)
       case CDropUpdate => Context(if panicked then FieldDropC(pc) else CFreeGpa, gpa, None, n, u || panicked)
       case CFreeGpa => o.(cpc := if panicked then FieldDropC(pc) else CDropCore, unwinding := u || panicked)
       case CDropCore => o.(cpc := CGone)
       case CGone => o)
    case Failed(pc, gpa, u) => if pc.FFreeGpa? then Failed(FDropCore, gpa, u || panicked) else Done
    case Core(pc, u) =>
      (match pc
       case MUnregister => Core(MTake, u)
       case MTake => Core(MTerminate, u)
       case MTerminate => Core(MDropWakeup, u)
       case MDropWakeup => Core(MFreeProtocols, u || panicked)
       case MFreeProtocols => if sh.registry == [] then Done else Core(MFreeProtocols, u || panicked))
    case Registration(pc, b, u) => if pc.RAdd? then Registration(if flag then RFree else RPush, b, u) else Done
    case Releasing(_, _) => Done
    case Done => Done
  }

  /** Dropping the last Arc drops the Mpv, on the same thread. */
  function Continues(sh: Shared, o: Obj): seq<Obj> {
    if DropsArc(o) && sh.strong - 1 == 0 then [Core(MUnregister, o.unwinding)] else []
  }

  /** The box freed at this point holds an Arc. */
  predicate FreesArc(w: World, o: Obj) {
    var b := FreedAt(w.sh, o);
    b.Some? && b.value < |w.holds| && w.holds[b.value]
  }

  /** What a step sets off: the end of the Mpv, or the drop of the Arc that the freed closure
      had captured, which goes on by itself, unwinding if the closure's destructor panicked. */
  function SetsOff(w: World, o: Obj, flag: bool): seq<Obj> {
    if FreesArc(w, o) && !o.Done? then [Handle(Dropping, o.unwinding || flag)] else Continues(w.sh, o)
  }

  function CountFree(frees: seq<int>, b: Option<BoxId>): seq<int> {
    if b.Some? && b.value < |frees| then frees[b.value := frees[b.value] + 1] else frees
  }

  /** A panic while already unwinding ends the run. */
  predicate Aborts(sh: Shared, o: Obj, flag: bool) {
    flag && FreedAt(sh, o).Some? && !o.Done? && o.unwinding
  }

  function AdvanceBy(w: World, i: nat, flag: bool): World
    requires i < |w.objs|
  {
    var o := w.objs[i];
    if Aborts(w.sh, o, flag) then w.(sh := w.sh.(aborted := true))
    else World(Effect(w.sh, o, flag), CountFree(w.frees, FreedAt(w.sh, o)), w.holds,
               w.objs[i := Next(w.sh, o, flag)] + SetsOff(w, o, flag))
  }

  // ----- what the user can do -----

  datatype Outcome = Created | Refused | NullContext

  /** `arc`: the closure passed in captures an Arc of the player. */
  datatype Label =
    | BuilderSet(ok: bool)                                  // Builder::set_property
    | Build(ok: bool)                                       // Builder::build
    | DropBuilder
    | SetWakeup(clear: bool, arc: bool)                     // on the Builder or on the Mpv
    | Clone(i: nat)
    | DropHandle(i: nat, unwinding: bool)
    | NewContext(i: nat, opengl: bool, outcome: Outcome, arc: bool)    // moves the Arc i in
    | SetUpdate(i: nat, clear: bool, arc: bool)
    | DropContext(i: nat, unwinding: bool)
    | Register(arc: bool)                                   // register_protocol
    | LateWakeup(i: nat)      // a dispatch still holds the wakeup closure that core i is about to drop
    | LateUpdate(i: nat)      // the same for the update closure of context i
    | Advance(i: nat, flag: bool)

  predicate IsHeld(o: Obj) {
    o.Handle? && o.hpc.Held?
  }

  predicate IsLive(o: Obj) {
    o.Context? && o.cpc.Live?
  }

  predicate Moves(o: Obj) {
    match o
    case Handle(pc, _) => pc.Dropping?
    case Context(pc, _, _, _, _) => !pc.Live? && !pc.CGone?
    case Done => false
    case _ => true
  }

  /** A value through which the user can reach the Mpv. */
  predicate IsOwner(o: Obj) {
    IsHeld(o) || IsLive(o)
  }

  /** While a registration borrows the Mpv, one owner must stay behind. */
  predicate MayGive(w: World, i: nat) {
    || (forall j :: 0 <= j < |w.objs| ==> !w.objs[j].Registration?)
    || (exists j :: 0 <= j < |w.objs| && j != i && IsOwner(w.objs[j]))
  }

  predicate Enabled(w: World, l: Label) {
    !w.sh.aborted &&
    match l
    case BuilderSet(_) => w.sh.building
    case Build(_) => w.sh.building
    case DropBuilder => w.sh.building
    case SetWakeup(clear, arc) =>
      (w.sh.building && (clear || !arc)) || exists j :: 0 <= j < |w.objs| && IsOwner(w.objs[j])
    case Clone(i) => i < |w.objs| && IsOwner(w.objs[i])
    case DropHandle(i, _) => i < |w.objs| && IsHeld(w.objs[i]) && MayGive(w, i)
    case NewContext(i, _, _, _) => i < |w.objs| && IsHeld(w.objs[i]) && MayGive(w, i)
    case SetUpdate(i, _, _) => i < |w.objs| && IsLive(w.objs[i])
    case DropContext(i, _) => i < |w.objs| && IsLive(w.objs[i]) && MayGive(w, i)
    case Register(_) => exists j :: 0 <= j < |w.objs| && IsOwner(w.objs[j])
    case LateWakeup(i) => i < |w.objs| && w.objs[i].Core? && w.objs[i].mpc.MDropWakeup? && w.sh.wakeup.Some?
    case LateUpdate(i) =>
      i < |w.objs| && w.objs[i].Context? && w.objs[i].cpc.CDropUpdate? && w.objs[i].update.Some?
    case Advance(i, _) => i < |w.objs| && Moves(w.objs[i])
  }

  /** The Builder's Drop: the same body, and no protocols. */
  function EndBuilder(w: World): World {
    w.(sh := w.sh.(building := false), objs := w.objs + [Core(MUnregister, false)])
  }

  /** A closure whose slot has given up its handle: freed now, or whenever the dispatch that
      still runs it returns. */
  function Replaced(previous: Option<BoxId>): seq<Obj> {
    if previous.Some? then [Releasing(previous.value, false)] else []
  }

  /** The box a call creates, if any: whether its closure captures an Arc of the player. */
  function NewBox(l: Label): seq<bool> {
    match l
    case SetWakeup(clear, arc) => if clear then [] else [arc]
    case NewContext(_, opengl, _, arc) => if opengl then [arc] else []
    case SetUpdate(_, clear, arc) => if clear then [] else [arc]
    case Register(arc) => [arc]
    case _ => []
  }

  /** The closure with its captures comes into being, in a box of its own. */
  function WithBox(w: World, l: Label): World {
    var box := NewBox(l);
    if box == [] then w
    else World(w.sh.(strong := w.sh.strong + Bit(box[0])), w.frees + [0], w.holds + box, w.objs)
  }

  /** A call, given the world with its box in it; b is the number of that box. */
  function Call(w: World, l: Label, b: BoxId): World
    requires Enabled(w, l)
  {
    match l
    case BuilderSet(ok) => if ok then w else EndBuilder(w)
    case Build(ok) =>
      if ok then w.(sh := w.sh.(building := false, strong := 1), objs := w.objs + [Handle(Held, false)])
      else EndBuilder(w)
    case DropBuilder => EndBuilder(w)
    case SetWakeup(clear, _) =>
      w.(sh := w.sh.(wakeup := if clear then None else Some(b)), objs := w.objs + Replaced(w.sh.wakeup))
    case Clone(i) => w.(sh := w.sh.(strong := w.sh.strong + 1), objs := w.objs + [Handle(Held, false)])
    case DropHandle(i, u) => w.(objs := w.objs[i := Handle(Dropping, u)])
    case NewContext(i, opengl, outcome, _) =>
      var gpa := if opengl then Some(b) else None;
      (match outcome
       case Created => w.(objs := w.objs[i := Context(Live, gpa, None, 0, false)])
       case Refused => w.(objs := w.objs[i := Failed(FFreeGpa, gpa, false)])
       case NullContext =>
         w.(sh := if opengl then w.sh.(leaked := w.sh.leaked + {b}) else w.sh,
            objs := w.objs[i := Failed(FDropCore, None, true)]))
    case SetUpdate(i, clear, _) =>
      var o := w.objs[i];
      w.(objs := w.objs[i := o.(update := if clear then None else Some(b))] + Replaced(o.update))
    case DropContext(i, u) => w.(objs := w.objs[i := w.objs[i].(cpc := CUnregister, unwinding := u)])
    case Register(_) => w.(objs := w.objs + [Registration(RAdd, b, false)])
    case LateWakeup(i) => w.(sh := w.sh.(wakeup := None), objs := w.objs + Replaced(w.sh.wakeup))
    case LateUpdate(i) =>
      var o := w.objs[i];
      w.(objs := w.objs[i := o.(update := None)] + Replaced(o.update))
    case Advance(i, flag) => AdvanceBy(w, i, flag)
  }

  function Apply(w: World, l: Label): World
    requires Enabled(w, l)
  {
    Call(WithBox(w, l), l, |w.frees|)
  }

  // ----- runs -----

  predicate Legal(w: World, ls: seq<Label>)
    decreases |ls|
  {
    ls == [] || (Enabled(w, ls[0]) && Legal(Apply(w, ls[0]), ls[1..]))
  }

  function Exec(w: World, ls: seq<Label>): World
    requires Legal(w, ls)
    decreases |ls|
  {
    if ls == [] then w else Exec(Apply(w, ls[0]), ls[1..])
  }

  ghost predicate Reachable(w: World) {
    exists ls :: Legal(Init(), ls) && Exec(Init(), ls) == w
  }
}
