/**
 * What a call of `set` or `teardown`, and a dispatch, cannot leave out: in every run, and
 * whatever the others do, an activity that has finished has been through its milestones.
 */
module SlotMilestones {
  import opened Common
  import opened SlotSteps
  import opened SlotInvariant
  import opened SlotTheorems

  datatype Milestone = Stores(c: nat) | Registers(c: nat) | Unregisters | Takes | Destroys | Clones | Calls(c: nat)

  /** The activity is at the point where it does this. */
  predicate At(a: Act, m: Milestone) {
    match m
    case Stores(c) => a.Setting? && a.c == c && a.pc.Replace?
    case Registers(c) => a.Setting? && a.c == c && a.pc.StoreCallback?
    case Unregisters => a.Tearing? && a.tpc.TdUnregister?
    case Takes => a.Tearing? && a.tpc.TdTake?
    case Destroys => a.Tearing? && a.tpc.TdDestroy?
    case Clones => a.Dispatching? && a.dpc.Clone?
    case Calls(c) => a.Dispatching? && a.got == Some(c) && a.dpc.Invoking?
  }

  predicate BeforeStore(a: Act, c: nat) {
    a.Setting? && a.c == c && (a.pc.AskReg? || a.pc.CheckLeaked? || a.pc.MarkLeaked? || a.pc.AskSlot?)
  }

  predicate BeforeUnregister(a: Act) {
    a.Tearing? && (a.tpc.TdAskReg? || a.tpc.TdAskDispatch?)
  }

  predicate BeforeTake(a: Act) {
    BeforeUnregister(a) || (a.Tearing? && (a.tpc.TdUnregister? || a.tpc.TdAskSlot?))
  }

  /** It has this still before it. */
  predicate Ahead(a: Act, m: Milestone) {
    match m
    case Stores(c) => BeforeStore(a, c)
    case Registers(c) =>
      || BeforeStore(a, c)
      || (a.Setting? && a.c == c && (a.pc.Replace? || a.pc.LeaveSlot? || a.pc.AskDispatch?))
    case Unregisters => BeforeUnregister(a)
    case Takes => BeforeTake(a)
    case Destroys => BeforeTake(a) || (a.Tearing? && (a.tpc.TdTake? || a.tpc.TdLeaveReg? || a.tpc.TdLeaveSlot?))
    case Clones => a.Dispatching? && (a.dpc.AwaitDispatch? || a.dpc.Enter?)
    case Calls(c) => a.Dispatching? && a.got == Some(c) && (a.dpc.LeaveClone? || a.dpc.Call?)
  }

  /** No step goes past a milestone. */
  lemma NoStepPasses(sh: Shared, last: bool, a: Act, m: Milestone)
    requires Ahead(a, m)
    ensures Ahead(Next(sh, last, a), m) || At(Next(sh, last, a), m)
  {
  }

  lemma StepTowards(s: State, l: Label, i: nat, m: Milestone)
    requires Enabled(s, l) && i < |s.acts| && Ahead(s.acts[i], m)
    ensures i < |Apply(s, l).acts|
    ensures Ahead(Apply(s, l).acts[i], m) || At(Apply(s, l).acts[i], m)
  {
    if l == Advance(i) {
      NoStepPasses(s.sh, ReachesZero(s.closures, RefOf(s.sh.cell, s.acts[i])), s.acts[i], m);
    }
  }

  /** After the first k + 1 labels of a run. */
  lemma Prefix(s: State, ls: seq<Label>, k: nat)
    requires ls != [] && k < |ls| && Enabled(s, ls[0]) && Legal(Apply(s, ls[0]), ls[1..][..k])
    ensures Legal(s, ls[..k + 1]) && Exec(s, ls[..k + 1]) == Exec(Apply(s, ls[0]), ls[1..][..k])
  {
    hide Apply, Enabled;
    assert ls[..k + 1][0] == ls[0] && ls[..k + 1][1..] == ls[1..][..k];
  }

  /** In every run that finishes the activity, it comes to each milestone it had before it. */
  lemma {:induction false} PassesMilestone(s: State, ls: seq<Label>, i: nat, m: Milestone) returns (k: nat)
    requires Legal(s, ls) && i < |s.acts| && Ahead(s.acts[i], m)
    requires i < |Exec(s, ls).acts| && Exec(s, ls).acts[i].Done?
    ensures k <= |ls| && Legal(s, ls[..k]) && i < |Exec(s, ls[..k]).acts| && At(Exec(s, ls[..k]).acts[i], m)
    decreases |ls|
  {
    assert ls != [];
    var t := Apply(s, ls[0]);
    StepTowards(s, ls[0], i, m);
    hide Apply, Enabled, At;
    if At(t.acts[i], m) {
      k := 0;
    } else {
      k := PassesMilestone(t, ls[1..], i, m);
    }
    Prefix(s, ls, k);
    k := k + 1;
  }

  /** A dispatch that has returned has looked into the cell. */
  lemma DispatchClones(s: State, ls: seq<Label>, i: nat) returns (k: nat)
    requires Legal(s, ls) && i < |s.acts| && s.acts[i].Dispatching?
    requires s.acts[i].dpc.AwaitDispatch? || s.acts[i].dpc.Enter?
    requires i < |Exec(s, ls).acts| && Exec(s, ls).acts[i].Done?
    ensures k <= |ls| && Legal(s, ls[..k]) && i < |Exec(s, ls[..k]).acts| && At(Exec(s, ls[..k]).acts[i], Clones)
  {
    k := PassesMilestone(s, ls, i, Clones);
  }

  /** A dispatch that cloned a closure calls it, whatever the cell holds by then. */
  lemma DispatchCallsItsClone(s: State, ls: seq<Label>, i: nat, c: nat) returns (k: nat)
    requires Legal(s, ls) && i < |s.acts| && s.acts[i].Dispatching? && s.acts[i].got == Some(c)
    requires s.acts[i].dpc.LeaveClone? || s.acts[i].dpc.Call?
    requires i < |Exec(s, ls).acts| && Exec(s, ls).acts[i].Done?
    ensures k <= |ls| && Legal(s, ls[..k]) && i < |Exec(s, ls[..k]).acts|
    ensures var a := Exec(s, ls[..k]).acts[i]; a.Dispatching? && a.dpc.Invoking? && a.got == Some(c)
  {
    k := PassesMilestone(s, ls, i, Calls(c));
  }

  /** The closure it calls is the one in the cell at the moment of the clone. */
  lemma DispatchCallsTheCell(s: State, ls: seq<Label>, i: nat) returns (k: nat)
    requires i < |s.acts| && s.acts[i].Dispatching? && s.acts[i].dpc.Clone? && s.sh.cell.Some?
    requires Enabled(s, Advance(i)) && Legal(AdvanceBy(s, i), ls)
    requires i < |Exec(AdvanceBy(s, i), ls).acts| && Exec(AdvanceBy(s, i), ls).acts[i].Done?
    ensures k <= |ls| && Legal(AdvanceBy(s, i), ls[..k]) && i < |Exec(AdvanceBy(s, i), ls[..k]).acts|
    ensures At(Exec(AdvanceBy(s, i), ls[..k]).acts[i], Calls(s.sh.cell.value))
  {
    k := DispatchCallsItsClone(AdvanceBy(s, i), ls, i, s.sh.cell.value);
  }

  /** A set that has returned has put its closure into the cell and then registered with
      libmpv, even if a callback was registered before. */
  lemma SetStoresAndRegisters(s: State, ls: seq<Label>) returns (k: nat, n: nat)
    requires Enabled(s, StartSet) && Legal(Apply(s, StartSet), ls)
    requires |s.acts| < |Exec(Apply(s, StartSet), ls).acts| && Exec(Apply(s, StartSet), ls).acts[|s.acts|].Done?
    ensures var t := Apply(s, StartSet); var i, c := |s.acts|, |s.closures|;
            && k <= |ls| && Legal(t, ls[..k]) && i < |Exec(t, ls[..k]).acts| && At(Exec(t, ls[..k]).acts[i], Stores(c))
            && n <= |ls| && Legal(t, ls[..n]) && i < |Exec(t, ls[..n]).acts|
            && At(Exec(t, ls[..n]).acts[i], Registers(c))
  {
    k := PassesMilestone(Apply(s, StartSet), ls, |s.acts|, Stores(|s.closures|));
    n := PassesMilestone(Apply(s, StartSet), ls, |s.acts|, Registers(|s.closures|));
  }

  /** A teardown that has returned has unregistered, taken the closure and run destroy. */
  lemma TeardownDoesAll(s: State, final: bool, ls: seq<Label>, m: Milestone) returns (k: nat)
    requires Enabled(s, StartTeardown(final)) && Legal(Apply(s, StartTeardown(final)), ls)
    requires |s.acts| < |Exec(Apply(s, StartTeardown(final)), ls).acts|
    requires Exec(Apply(s, StartTeardown(final)), ls).acts[|s.acts|].Done?
    requires m.Unregisters? || m.Takes? || m.Destroys?
    ensures var t := Apply(s, StartTeardown(final));
            && k <= |ls| && Legal(t, ls[..k]) && |s.acts| < |Exec(t, ls[..k]).acts|
            && At(Exec(t, ls[..k]).acts[|s.acts|], m)
  {
    k := PassesMilestone(Apply(s, StartTeardown(final)), ls, |s.acts|, m);
  }
}
