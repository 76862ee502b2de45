/**
 * `poll_event` in the source's own form: a handle whose event storage each wait call
 * overwrites, a decoder that reads it piece by piece, and the loop that drains the queue.
 *
 * Beside the fields stands the step system of Polling, with every other caller in it; after
 * each update it takes the step the update stands for and must lead to the same state.
 * Other callers, and libmpv, do what an arbitrary schedule says whenever they can: before
 * the event lock is taken, and between any two reads of the decode.
 */
module EventHandles {
  import opened Common
  import opened NodeModel
  import opened Events
  import opened EventMeaning
  import opened EventReads
  import opened EventDecoder
  import opened Polling

  /** The client-message branch of `Event::from_raw`, on memory that does not change. */
  method MessageFromRaw(e: Stored) returns (args: seq<seq<Byte>>)
    requires e.data.MessageData?
    ensures args == LossyArgs(e, Max0(e.data.numArgs)) && MessageIs(e, args)
  {
    MessageIsRight(e);
    args := [];
    for i := 0 to Max0(e.data.numArgs)
      invariant args == LossyArgs(e, i)
    {
      args := args + [Lossy(e.mem, e.data.args[i])];
    }
  }

  /** What other callers cannot change about poll i, from m to t. */
  predicate Overtaken(m: State, t: State, i: nat) {
    && Grown(m, t) && i < |m.pollers| && t.pollers[i] == m.pollers[i]
  }

  /** What only ever grows. */
  predicate Grown(m: State, t: State) {
    m.log <= t.log && m.posted <= t.posted && |m.pollers| <= |t.pollers| && t.v108 == m.v108
  }

  lemma GrownRefl(m: State)
    ensures Grown(m, m)
  {
  }

  lemma GrownTransitive(m: State, t: State, u: State)
    requires Grown(m, t) && Grown(t, u)
    ensures Grown(m, u)
  {
  }

  /** A step of somebody else. */
  predicate ByOthers(l: Label, i: nat) {
    l.Step? ==> l.i != i
  }

  lemma OthersOvertake(m: State, l: Label, i: nat)
    requires Enabled(m, l) && ByOthers(l, i) && i < |m.pollers|
    ensures Overtaken(m, Apply(m, l), i)
  {
  }

  lemma OwnGrows(m: State, i: nat, woken: bool)
    requires Enabled(m, Step(i, woken))
    ensures Grown(m, Apply(m, Step(i, woken)))
  {
  }

  /** What the holder of the event lock still has to do. */
  function HolderWork(m: State): nat {
    if m.lock.None? || m.lock.value >= |m.pollers| then 0
    else
      match m.pollers[m.lock.value]
      case Decoding(got, _) =>
        var n := |EventTrace(m.storage, m.v108)|;
        if |got| <= n then 2 + n - |got| else 1
      case _ => 1
  }

  /** Whether it has yet to make its wait call. */
  function HolderPhase(m: State): nat {
    if m.lock.Some? && m.lock.value < |m.pollers| then if m.pollers[m.lock.value].Locked? then 2 else 1 else 0
  }

  lemma HolderMovesOn(m: State)
    requires Inv(m) && m.lock.Some?
    ensures var l := Step(m.lock.value, false);
            && Enabled(m, l)
            && var t := Apply(m, l);
               HolderPhase(t) < HolderPhase(m) || (HolderPhase(t) == HolderPhase(m) && HolderWork(t) < HolderWork(m))
  {
    var i := m.lock.value;
    assert PollerAt(m, i);
    if m.pollers[i].Decoding? { EventTracks(m.storage, m.v108, m.pollers[i].got); }
  }

  /** A decode in progress reads the event of its own wait call, which was the last one. */
  lemma DecodingFacts(m: State, i: nat)
    requires Inv(m) && i < |m.pollers| && m.pollers[i].Decoding?
    ensures m.pollers[i].turn == |m.log| - 1 && m.storage == m.log[m.pollers[i].turn].e
    ensures m.pollers[i].got <= EventTrace(m.storage, m.v108)
  {
    assert PollerAt(m, i);
  }

  /** A finished one has its result. */
  lemma LeavingFacts(m: State, i: nat)
    requires Inv(m) && i < |m.pollers| && m.pollers[i].Leaving?
    ensures m.lock == Some(i) && m.pollers[i].turn < |m.log|
    ensures m.pollers[i].result == FromRaw(m.log[m.pollers[i].turn].e, m.v108)
    ensures var w := m.log[m.pollers[i].turn];
            WaitAt(w) && (m.pollers[i].result.None? <==> w.pending == 0 || w.woken)
  {
    assert PollerAt(m, i) && WaitAt(m.log[m.pollers[i].turn]);
  }

  /** The step of a decode, as an update of the step system. */
  lemma DecodeStep(m: State, i: nat, got: seq<Reply>, turn: nat)
    requires i < |m.pollers| && m.pollers[i] == Decoding(got, turn)
    ensures Enabled(m, Step(i, false))
    ensures Apply(m, Step(i, false))
            == m.(pollers := m.pollers[i := match EventFrom(m.v108, got)
                                            case Need(q) => Decoding(got + [Answer(m.storage, q)], turn)
                                            case Val(v, _) => Leaving(v, turn)])
  {
  }

  class Handle {
    /** mpv_wait_event's storage, and the events behind it: libmpv's. */
    var storage: Stored
    var queue: seq<Stored>
    /** Who is between the lock and the end of `poll_event`. */
    var eventLock: Option<nat>
    /** All callers. */
    var model: State
    /** What other callers, and libmpv, try to do the n-th time that they can. */
    const schedule: nat -> seq<Label>
    var clock: nat

    ghost predicate Matches(m: State)
      reads this
    {
      storage == m.storage && queue == m.queue && eventLock == m.lock
    }

    ghost predicate Valid()
      reads this
    {
      Matches(model) && Inv(model)
    }

    ghost predicate Undisturbed() {
      forall n :: schedule(n) == []
    }

    constructor (v108: bool, schedule: nat -> seq<Label>)
      ensures Valid() && queue == [] && eventLock == None && model.v108 == v108 && this.schedule == schedule
    {
      storage, queue, eventLock := NONE_EVENT, [], None;
      model := State(None, NONE_EVENT, [], [], [], [], v108);
      this.schedule, clock := schedule, 0;
    }

    /** The step system takes the step l, which must agree with the fields as they are now. */
    method Follow(l: Label)
      requires Inv(model) && Enabled(model, l) && Matches(Apply(model, l))
      modifies `model
      ensures Valid() && model == Apply(old(model), l)
    {
      InvKept(model, l);
      model := Apply(model, l);
    }

    /** A step of somebody else. */
    method Other(l: Label, i: nat)
      requires Valid() && Enabled(model, l) && ByOthers(l, i) && i < |model.pollers|
      modifies this
      ensures Valid() && Overtaken(old(model), model, i) && model == Apply(old(model), l)
    {
      OthersOvertake(model, l, i);
      InvKept(model, l);
      hide Inv;
      model := Apply(model, l);
      storage, queue, eventLock := model.storage, model.queue, model.lock;
    }

    /** Others overtake poll i, as their schedule has it. */
    method Interfere(i: nat)
      requires Valid() && i < |model.pollers|
      modifies this
      ensures Valid() && Overtaken(old(model), model, i)
      ensures Undisturbed() ==> model == old(model)
    {
      hide Inv, Apply, Enabled;
      var ls := schedule(clock);
      clock := clock + 1;
      for n := 0 to |ls|
        invariant Valid() && Overtaken(old(model), model, i)
        invariant Undisturbed() ==> model == old(model)
      {
        if ByOthers(ls[n], i) && Enabled(model, ls[n]) {
          Other(ls[n], i);
        }
      }
    }

    /** Wait for the event lock: whoever holds it finishes its decode. */
    method AwaitLock(i: nat)
      requires Valid() && i < |model.pollers| && model.pollers[i].Waiting?
      modifies this
      ensures Valid() && Overtaken(old(model), model, i) && eventLock == None
      ensures Undisturbed() && old(eventLock) == None ==> model == old(model)
    {
      hide Inv, HolderPhase, HolderWork;
      Interfere(i);
      while eventLock != None
        invariant Valid() && Overtaken(old(model), model, i)
        invariant Undisturbed() && old(eventLock) == None ==> model == old(model)
        decreases HolderPhase(model), HolderWork(model)
      {
        HolderMoves(i);
      }
    }

    /** Whoever holds the event lock takes a step. */
    method HolderMoves(i: nat)
      requires Valid() && i < |model.pollers| && model.pollers[i].Waiting? && eventLock.Some?
      modifies this
      ensures Valid() && Overtaken(old(model), model, i)
      ensures HolderPhase(model) < HolderPhase(old(model))
           || (HolderPhase(model) == HolderPhase(old(model)) && HolderWork(model) < HolderWork(old(model)))
    {
      HolderMovesOn(model);
      HolderIsAnother(i);
      hide Inv, Apply, Enabled, HolderPhase, HolderWork;
      Other(Step(eventLock.value, false), i);
    }

    lemma HolderIsAnother(i: nat)
      requires Valid() && i < |model.pollers| && model.pollers[i].Waiting? && eventLock.Some?
      ensures eventLock.value != i
    {
      assert PollerAt(model, i);
    }

    /** mpv_wait_event with a zero timeout: overwrites the storage. */
    method WaitEvent(i: nat, woken: bool)
      requires Valid() && i < |model.pollers| && model.pollers[i].Locked?
      modifies `queue, `storage, `model
      ensures Valid() && model == Apply(old(model), Step(i, woken))
      ensures storage == Taken(old(model), woken)
    {
      if queue == [] || woken {
        storage := NONE_EVENT;
      } else {
        storage := queue[0];
        queue := queue[1..];
      }
      hide Inv;
      Follow(Step(i, woken));
    }

    /** One read of the decode, after the others had their turn. */
    method ReadOn(i: nat, got: seq<Reply>, turn: nat) returns (more: seq<Reply>)
      requires Valid() && i < |model.pollers| && model.pollers[i] == Decoding(got, turn)
      requires EventFrom(model.v108, got).Need?
      modifies this
      ensures Valid() && Grown(old(model), model) && i < |model.pollers|
      ensures model.pollers[i] == Decoding(more, turn) && |more| == |got| + 1 && model.v108 == old(model.v108)
      ensures Undisturbed() ==> model == old(model).(pollers := old(model.pollers)[i := Decoding(more, turn)])
    {
      hide Inv, EventFrom, Apply, Enabled, Answer;
      Interfere(i);
      DecodeStep(model, i, got, turn);
      more := got + [Answer(storage, EventFrom(model.v108, got).req)];
      Follow(Step(i, false));
    }

    /** The decode, one read after the other, while the others go on. */
    method Decode(i: nat) returns (r: Option<Event>, turn: nat)
      requires Valid() && i < |model.pollers| && model.pollers[i].Decoding?
      modifies this
      ensures Valid() && Grown(old(model), model) && i < |model.pollers|
      ensures turn == old(model.pollers[i].turn) && model.pollers[i] == Leaving(r, turn)
      ensures Undisturbed() ==> model == old(model).(pollers := old(model.pollers)[i := Leaving(r, turn)])
    {
      var got := model.pollers[i].got;
      turn := model.pollers[i].turn;
      var v108 := model.v108;
      ghost var n := |EventTrace(storage, v108)|;
      DecodingFacts(model, i);
      GrownRefl(model);
      hide Inv, Apply, Enabled, EventFrom, EventTrace, Answer, FromRaw, Grown;
      while EventFrom(v108, got).Need?
        invariant Valid() && Grown(old(model), model) && i < |model.pollers| && model.v108 == v108
        invariant model.pollers[i] == Decoding(got, turn) && |got| <= n
        invariant Undisturbed() ==> model == old(model).(pollers := old(model.pollers)[i := Decoding(got, turn)])
        decreases n - |got|
      {
        ghost var m := model;
        got := ReadOn(i, got, turn);
        GrownTransitive(old(model), m, model);
        SameEvent(old(model), model, i);
      }
      r := EventFrom(v108, got).v;
      ghost var m := model;
      DecodeStep(model, i, got, turn);
      OwnGrows(model, i, false);
      Follow(Step(i, false));
      GrownTransitive(old(model), m, model);
    }

    /** While a poll decodes, nobody makes a wait call. */
    lemma SameEvent(m: State, t: State, i: nat)
      requires Inv(m) && Inv(t) && Grown(m, t) && i < |m.pollers| && m.pollers[i].Decoding?
      requires t.pollers[i].Decoding? && t.pollers[i].turn == m.pollers[i].turn
      ensures t.storage == m.storage && |t.pollers[i].got| <= |EventTrace(m.storage, m.v108)|
    {
      DecodingFacts(m, i);
      DecodingFacts(t, i);
    }

    /**
     * The next pending event.  Whatever other callers do, it is the decoding of the one event
     * that this call's own wait call took off the queue, at its turn in lock order, and it is
     * None exactly when that wait call found nothing pending or was woken by a request.
     */
    method PollEvent(woken: bool) returns (r: Option<Event>, turn: nat)
      requires Valid()
      modifies this
      ensures Valid() && Grown(old(model), model)
      ensures |old(model.log)| <= turn < |model.log| && r == FromRaw(model.log[turn].e, model.v108)
      ensures Denotes(model.log[turn].e, model.v108, r)
      ensures model.log[turn].woken == woken
      ensures r.None? <==> model.log[turn].pending == 0 || woken
      ensures |old(model.pollers)| < |model.pollers| && model.pollers[|old(model.pollers)|] == Returned(r, turn)
      ensures Undisturbed() && old(eventLock) == None ==>
        && eventLock == None && (r.None? <==> old(queue) == [] || woken)
        && queue == (if r.None? then old(queue) else old(queue)[1..])
        && (r.Some? ==> r == FromRaw(old(queue)[0], model.v108))
    {
      var i := |model.pollers|;
      turn := EnterPoll(i, woken);
      r := FinishPoll(i, turn);
      FromRawIsRight(model.log[turn].e, model.v108);
    }

    /** Take the event lock and make the wait call. */
    method EnterPoll(i: nat, woken: bool) returns (turn: nat)
      requires Valid() && i == |model.pollers|
      modifies this
      ensures Valid() && Grown(old(model), model) && i < |model.pollers|
      ensures model.pollers[i] == Decoding([], turn) && |old(model.log)| <= turn < |model.log|
      ensures model.log[turn].woken == woken
      ensures Undisturbed() && old(eventLock) == None ==>
        && model.log[turn] == Wait(Taken(old(model), woken), |old(queue)|, woken)
        && queue == if old(queue) == [] || woken then old(queue) else old(queue)[1..]
    {
      hide Inv;
      ghost var m := model;
      Follow(StartPoll);
      ghost var m1 := model;
      AwaitLock(i);
      GrownTransitive(m, m1, model);
      eventLock := Some(i);
      Follow(Step(i, woken));
      turn := |model.log|;
      WaitEvent(i, woken);
    }

    /** Decode, and release the lock. */
    method FinishPoll(i: nat, turn: nat) returns (r: Option<Event>)
      requires Valid() && i < |model.pollers| && model.pollers[i] == Decoding([], turn) && turn < |model.log|
      modifies this
      ensures Valid() && Grown(old(model), model) && i < |model.pollers|
      ensures model.log[turn] == old(model.log[turn])
      ensures r == FromRaw(model.log[turn].e, model.v108) && model.pollers[i] == Returned(r, turn)
      ensures r.None? <==> model.log[turn].pending == 0 || model.log[turn].woken
      ensures Undisturbed() ==> queue == old(queue) && eventLock == None
    {
      hide Inv, Apply, Enabled;
      ghost var m := model;
      var own;
      r, own := Decode(i);
      LeavingFacts(model, i);
      ghost var m1 := model;
      LeaveStep(model, i, r, turn);
      eventLock := None;
      Follow(Step(i, false));
      GrownTransitive(m, m1, model);
    }

    lemma LeaveStep(m: State, i: nat, r: Option<Event>, turn: nat)
      requires i < |m.pollers| && m.pollers[i] == Leaving(r, turn)
      ensures Enabled(m, Step(i, false))
      ensures Apply(m, Step(i, false)) == m.(lock := None, pollers := m.pollers[i := Returned(r, turn)])
    {
    }

    /** A poll by the only caller. */
    method PollAlone(woken: bool) returns (r: Option<Event>)
      requires Valid() && Undisturbed() && eventLock == None
      modifies this
      ensures Valid() && eventLock == None && model.v108 == old(model.v108)
      ensures r == if old(queue) == [] || woken then None else FromRaw(old(queue)[0], model.v108)
      ensures queue == if r.None? then old(queue) else old(queue)[1..]
      ensures r.None? ==> old(queue) == [] || woken
    {
      var turn;
      r, turn := PollEvent(woken);
    }

    /** What polling alone returns, call after call: the pending events in order, up to the
        first wakeup request. */
    predicate Delivers(was: seq<Stored>, v108: bool, events: seq<Event>, woken: nat -> bool) {
      |events| <= |was| &&
      forall k :: 0 <= k < |events| ==> FromRaw(was[k], v108) == Some(events[k]) && !woken(k)
    }

    lemma DeliversMore(was: seq<Stored>, v108: bool, events: seq<Event>, woken: nat -> bool, e: Event)
      requires Delivers(was, v108, events, woken) && |events| < |was|
      requires FromRaw(was[|events|], v108) == Some(e) && !woken(|events|)
      ensures Delivers(was, v108, events + [e], woken)
    {
    }

    /** `while let Some(e) = poll_event()`, by the only caller: it ends with the first wakeup
        request, or with the queue empty. */
    method Drain(woken: nat -> bool) returns (events: seq<Event>)
      requires Valid() && Undisturbed() && eventLock == None
      modifies this
      ensures Valid() && eventLock == None
      ensures Delivers(old(queue), model.v108, events, woken) && queue == old(queue)[|events|..]
      ensures queue == [] || woken(|events|)
    {
      hide Inv, FromRaw, Delivers;
      events := [];
      var v108 := model.v108;
      DeliversNothing(queue, v108, woken);
      var next := PollAlone(woken(0));
      while next.Some?
        invariant Valid() && eventLock == None && model.v108 == v108
        invariant |events| + Bit(next.Some?) <= |old(queue)| && queue == old(queue)[|events| + Bit(next.Some?)..]
        invariant next.Some? ==> next == FromRaw(old(queue)[|events|], v108) && !woken(|events|)
        invariant next.None? ==> queue == [] || woken(|events|)
        invariant Delivers(old(queue), v108, events, woken)
        decreases Bit(next.Some?) + |queue|
      {
        DeliversMore(old(queue), v108, events, woken, next.value);
        events := events + [next.value];
        next := PollAlone(woken(|events|));
      }
    }

    lemma DeliversNothing(was: seq<Stored>, v108: bool, woken: nat -> bool)
      ensures Delivers(was, v108, [], woken)
    {
    }
  }
}
