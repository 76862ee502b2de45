/**
 * `poll_event` with any number of concurrent callers (rsmpv/src/lib.rs).
 *
 * libmpv keeps one event storage per handle; each mpv_wait_event call overwrites it, and the
 * memory it points into.  A poll takes the event lock, makes that call, decodes the event one
 * read at a time, down to the single bytes of strings and the structs of nested nodes, and
 * releases the lock.  The steps of all pollers, and libmpv's posting of events, interleave.
 */
module Polling {
  import opened Common
  import opened Events
  import opened EventMeaning
  import opened EventReads
  import opened EventDecoder

  // ----- the step system -----

  /** One poll_event call.  `turn`: which of libmpv's wait calls, in lock order, was its. */
  datatype Poller =
    | Waiting
    | Locked
    | Decoding(got: seq<Reply>, turn: nat)
    | Leaving(result: Option<Event>, turn: nat)
    | Returned(result: Option<Event>, turn: nat)

  /** A wait call: what it put into the storage, how many events were pending, and whether a
      wakeup request made it return without one. */
  datatype Wait = Wait(e: Stored, pending: nat, woken: bool)

  datatype State = State(
    lock: Option<nat>,         // holder of event_lock
    storage: Stored,           // libmpv's event storage
    queue: seq<Stored>,
    posted: seq<Stored>,       // everything libmpv ever queued
    log: seq<Wait>,            // the wait calls, in lock order
    pollers: seq<Poller>,
    v108: bool)

  ghost predicate Initial(s: State) {
    s.lock.None? && s.queue == [] && s.posted == [] && s.log == [] && s.pollers == []
  }

  /** `woken`: a wakeup request makes the wait call return NONE, whatever is pending. */
  datatype Label = Post(e: Stored) | StartPoll | Step(i: nat, woken: bool)

  predicate Enabled(s: State, l: Label) {
    match l
    case Post(e) => e.id != EVENT_NONE
    case StartPoll => true
    case Step(i, _) =>
      i < |s.pollers| && !s.pollers[i].Returned? && (s.pollers[i].Waiting? ==> s.lock.None?)
  }

  /** What mpv_wait_event with timeout 0 leaves in the storage. */
  function Taken(s: State, woken: bool): Stored {
    if s.queue == [] || woken then NONE_EVENT else s.queue[0]
  }

  function Goto(s: State, i: nat, p: Poller): State
    requires i < |s.pollers|
  {
    s.(pollers := s.pollers[i := p])
  }

  function Apply(s: State, l: Label): State
    requires Enabled(s, l)
  {
    match l
    case Post(e) => s.(queue := s.queue + [e], posted := s.posted + [e])
    case StartPoll => s.(pollers := s.pollers + [Waiting])
    case Step(i, woken) =>
      match s.pollers[i]
      case Waiting => Goto(s.(lock := Some(i)), i, Locked)
      case Locked =>
        var e := Taken(s, woken);
        Goto(s.(storage := e, queue := if s.queue == [] || woken then s.queue else s.queue[1..],
                log := s.log + [Wait(e, |s.queue|, woken)]),
             i, Decoding([], |s.log|))
      case Decoding(got, turn) =>
        (match EventFrom(s.v108, got)
         case Need(q) => Goto(s, i, Decoding(got + [Answer(s.storage, q)], turn))
         case Val(v, _) => Goto(s, i, Leaving(v, turn)))
      case Leaving(r, turn) => Goto(s.(lock := None), i, Returned(r, turn))
      case Returned(_, _) => s
  }

  predicate Legal(s: State, ls: seq<Label>)
    decreases |ls|
  {
    ls == [] || (Enabled(s, ls[0]) && Legal(Apply(s, ls[0]), ls[1..]))
  }

  function Exec(s: State, ls: seq<Label>): State
    requires Legal(s, ls)
    decreases |ls|
  {
    if ls == [] then s else Exec(Apply(s, ls[0]), ls[1..])
  }

  // ----- the invariant -----

  /** The events among the results of the wait calls. */
  function RealEvents(log: seq<Wait>): seq<Stored> {
    if log == [] then []
    else RealEvents(log[..|log| - 1]) + (if log[|log| - 1].e.id == EVENT_NONE then [] else [log[|log| - 1].e])
  }

  lemma EventsAppend(log: seq<Wait>, w: Wait)
    ensures RealEvents(log + [w]) == RealEvents(log) + (if w.e.id == EVENT_NONE then [] else [w.e])
  {
    assert (log + [w])[..|log|] == log;
  }

  /** A wait call comes back empty exactly when nothing is pending or it was woken. */
  predicate WaitAt(w: Wait) {
    w.e.id == EVENT_NONE <==> w.pending == 0 || w.woken
  }

  predicate InLock(p: Poller) {
    p.Locked? || p.Decoding? || p.Leaving?
  }

  predicate HasTurn(p: Poller, k: nat) {
    (p.Decoding? || p.Leaving? || p.Returned?) && p.turn == k
  }

  predicate PollerAt(s: State, i: nat)
    requires i < |s.pollers|
  {
    && (InLock(s.pollers[i]) <==> s.lock == Some(i))
    && match s.pollers[i]
       case Decoding(got, turn) =>
         turn == |s.log| - 1 && s.storage == s.log[turn].e && got <= EventTrace(s.storage, s.v108)
       case Leaving(r, turn) => turn < |s.log| && r == FromRaw(s.log[turn].e, s.v108)
       case Returned(r, turn) => turn < |s.log| && r == FromRaw(s.log[turn].e, s.v108)
       case _ => true
  }

  ghost predicate TurnAt(s: State, k: nat) {
    exists i :: 0 <= i < |s.pollers| && HasTurn(s.pollers[i], k)
  }

  /** No two polls have the same turn. */
  ghost predicate TurnsDiffer(ps: seq<Poller>) {
    forall i, j, k: nat ::
      0 <= i < |ps| && 0 <= j < |ps| && HasTurn(ps[i], k) && HasTurn(ps[j], k) ==> i == j
  }

  ghost predicate Inv(s: State) {
    && QueueInv(s.posted, s.log, s.queue)
    && (forall k :: 0 <= k < |s.log| ==> WaitAt(s.log[k]))
    && (s.lock.Some? ==> s.lock.value < |s.pollers|)
    && (forall i :: 0 <= i < |s.pollers| ==> PollerAt(s, i))
    && TurnsDiffer(s.pollers)
    && (forall k: nat :: k < |s.log| ==> TurnAt(s, k))
  }

  lemma PollersKept(s: State, l: Label)
    requires Inv(s) && Enabled(s, l)
    ensures forall i :: 0 <= i < |Apply(s, l).pollers| ==> PollerAt(Apply(s, l), i)
  {
    var t := Apply(s, l);
    forall i | 0 <= i < |t.pollers| ensures PollerAt(t, i) {
      if i < |s.pollers| {
        assert PollerAt(s, i);
        if l.Step? {
          assert PollerAt(s, l.i);
          if i == l.i { OwnStep(s, i, l.woken); }
        }
      }
    }
  }

  lemma OwnStep(s: State, i: nat, woken: bool)
    requires i < |s.pollers| && PollerAt(s, i) && Enabled(s, Step(i, woken))
    ensures PollerAt(Apply(s, Step(i, woken)), i)
  {
    if s.pollers[i].Decoding? {
      ReadStep(s, i, woken);
    } else {
      hide EventFrom, EventTrace, FromRaw, Answer;
    }
  }

  lemma ReadStep(s: State, i: nat, woken: bool)
    requires i < |s.pollers| && PollerAt(s, i) && s.pollers[i].Decoding?
    ensures PollerAt(Apply(s, Step(i, woken)), i)
  {
    hide EventFrom, EventTrace, FromRaw, Answer;
    ReadIsNext(s.storage, s.v108, s.pollers[i].got);
  }

  /** One more read goes on along the trace; no more reads means the event is there. */
  lemma ReadIsNext(e: Stored, v108: bool, got: seq<Reply>)
    requires got <= EventTrace(e, v108)
    ensures match EventFrom(v108, got)
            case Need(q) => got + [Answer(e, q)] <= EventTrace(e, v108)
            case Val(v, _) => v == FromRaw(e, v108)
  {
    hide EventFrom, EventTrace, FromRaw, Answer, Tracks;
    EventTracks(e, v108, got);
    TracksNext(e, EventFrom(v108, got), FromRaw(e, v108), got, EventTrace(e, v108));
  }

  lemma TurnsKept(s: State, l: Label)
    requires Inv(s) && Enabled(s, l)
    ensures TurnsDiffer(Apply(s, l).pollers)
    ensures forall k: nat :: k < |Apply(s, l).log| ==> TurnAt(Apply(s, l), k)
  {
    hide EventFrom, EventTrace, FromRaw, Answer;
    var t := Apply(s, l);
    forall k: nat | k < |t.log| ensures TurnAt(t, k) {
      if k < |s.log| {
        assert TurnAt(s, k);
        var i :| 0 <= i < |s.pollers| && HasTurn(s.pollers[i], k);
        assert HasTurn(t.pollers[i], k);
      } else {
        assert HasTurn(t.pollers[l.i], k);
      }
    }
    forall i, j, k: nat |
      0 <= i < |t.pollers| && 0 <= j < |t.pollers| && HasTurn(t.pollers[i], k) && HasTurn(t.pollers[j], k)
      ensures i == j
    {
      TurnSource(s, l, i, k);
      TurnSource(s, l, j, k);
    }
  }

  /** A turn is either as old as the state before the step or the new one of the poller that waits. */
  lemma TurnSource(s: State, l: Label, i: nat, k: nat)
    requires Inv(s) && Enabled(s, l) && i < |Apply(s, l).pollers| && HasTurn(Apply(s, l).pollers[i], k)
    ensures (i < |s.pollers| && HasTurn(s.pollers[i], k) && k < |s.log|)
         || (l.Step? && i == l.i && s.pollers[i].Locked? && k == |s.log|)
  {
    hide EventFrom, EventTrace, FromRaw, Answer;
    if i < |s.pollers| { assert PollerAt(s, i); }
  }

  ghost predicate QueueInv(posted: seq<Stored>, log: seq<Wait>, queue: seq<Stored>) {
    posted == RealEvents(log) + queue && forall e :: e in queue ==> e.id != EVENT_NONE
  }

  lemma DequeueKept(posted: seq<Stored>, log: seq<Wait>, queue: seq<Stored>)
    requires QueueInv(posted, log, queue) && queue != []
    ensures QueueInv(posted, log + [Wait(queue[0], |queue|, false)], queue[1..]) && queue[0].id != EVENT_NONE
  {
    EventsAppend(log, Wait(queue[0], |queue|, false));
    assert queue[0] in queue;
    assert queue == [queue[0]] + queue[1..];
  }

  lemma NothingKept(posted: seq<Stored>, log: seq<Wait>, queue: seq<Stored>, woken: bool)
    requires QueueInv(posted, log, queue)
    ensures QueueInv(posted, log + [Wait(NONE_EVENT, |queue|, woken)], queue)
  {
    EventsAppend(log, Wait(NONE_EVENT, |queue|, woken));
  }

  lemma PostKept(posted: seq<Stored>, log: seq<Wait>, queue: seq<Stored>, e: Stored)
    requires QueueInv(posted, log, queue) && e.id != EVENT_NONE
    ensures QueueInv(posted + [e], log, queue + [e])
  {
    assert RealEvents(log) + queue + [e] == RealEvents(log) + (queue + [e]);
  }

  lemma QueueKept(s: State, l: Label)
    requires QueueInv(s.posted, s.log, s.queue) && Enabled(s, l)
    requires forall k :: 0 <= k < |s.log| ==> WaitAt(s.log[k])
    ensures QueueInv(Apply(s, l).posted, Apply(s, l).log, Apply(s, l).queue)
    ensures forall k :: 0 <= k < |Apply(s, l).log| ==> WaitAt(Apply(s, l).log[k])
  {
    hide QueueInv, EventFrom, Answer;
    match l
    case Post(e) => PostKept(s.posted, s.log, s.queue, e);
    case StartPoll =>
    case Step(i, woken) =>
      if s.pollers[i].Locked? {
        if s.queue == [] || woken {
          NothingKept(s.posted, s.log, s.queue, woken);
        } else {
          DequeueKept(s.posted, s.log, s.queue);
        }
      }
  }

  lemma InvKept(s: State, l: Label)
    requires Inv(s) && Enabled(s, l)
    ensures Inv(Apply(s, l)) && Apply(s, l).v108 == s.v108
  {
    PollersKept(s, l);
    TurnsKept(s, l);
    QueueKept(s, l);
  }

  lemma {:induction false} RunKeepsInv(s: State, ls: seq<Label>)
    requires Inv(s) && Legal(s, ls)
    ensures Inv(Exec(s, ls)) && Exec(s, ls).v108 == s.v108
    decreases |ls|
  {
    if ls != [] {
      InvKept(s, ls[0]);
      RunKeepsInv(Apply(s, ls[0]), ls[1..]);
    }
  }

  // ----- what polling promises -----

  ghost predicate Reachable(s: State) {
    exists s0, ls :: Initial(s0) && Legal(s0, ls) && Exec(s0, ls) == s
  }

  lemma ReachableInv(s: State)
    requires Reachable(s)
    ensures Inv(s)
  {
    var s0, ls :| Initial(s0) && Legal(s0, ls) && Exec(s0, ls) == s;
    RunKeepsInv(s0, ls);
  }

  /** The events dequeued, in lock order, are exactly a prefix of those posted. */
  lemma DequeuedIsPrefix(s: State)
    requires Reachable(s)
    ensures RealEvents(s.log) <= s.posted && s.posted == RealEvents(s.log) + s.queue
  {
    ReachableInv(s);
  }

  /** A poll returns the decoding of the one event it dequeued, as if the decode were atomic ... */
  lemma PollReturnsItsEvent(s: State, i: nat)
    requires Reachable(s) && i < |s.pollers| && s.pollers[i].Returned?
    ensures s.pollers[i].turn < |s.log|
    ensures s.pollers[i].result == FromRaw(s.log[s.pollers[i].turn].e, s.v108)
    ensures Denotes(s.log[s.pollers[i].turn].e, s.v108, s.pollers[i].result)
  {
    ReachableInv(s);
    assert PollerAt(s, i);
    FromRawIsRight(s.log[s.pollers[i].turn].e, s.v108);
  }

  /** ... and every wait call belongs to exactly one poll. */
  lemma EachEventToOnePoll(s: State, k: nat)
    requires Reachable(s) && k < |s.log|
    ensures exists i :: 0 <= i < |s.pollers| && HasTurn(s.pollers[i], k)
    ensures TurnsDiffer(s.pollers)
  {
    ReachableInv(s);
    assert TurnAt(s, k);
  }

  /** A poll that has returned None made its wait call when nothing was pending, or was woken
      by a request, and conversely; an event this crate does not know decodes to an event, so
      it never ends a drain. */
  lemma NoneMeansEmpty(s: State, i: nat)
    requires Reachable(s) && i < |s.pollers| && s.pollers[i].Returned?
    ensures s.pollers[i].turn < |s.log|
    ensures var w := s.log[s.pollers[i].turn];
            s.pollers[i].result.None? <==> w.pending == 0 || w.woken
  {
    ReachableInv(s);
    assert PollerAt(s, i) && WaitAt(s.log[s.pollers[i].turn]);
  }

  /** A decode in progress has read a beginning of its event's trace, whatever else happens. */
  lemma DecodeReadsItsEvent(s: State, i: nat)
    requires Reachable(s) && i < |s.pollers| && s.pollers[i].Decoding?
    ensures s.pollers[i].turn < |s.log|
    ensures s.pollers[i].got <= EventTrace(s.log[s.pollers[i].turn].e, s.v108)
  {
    ReachableInv(s);
    assert PollerAt(s, i);
  }

  /** The steps a poll has left once it has its event. */
  function Left(s: State, i: nat): nat
    requires Inv(s) && i < |s.pollers|
  {
    assert PollerAt(s, i);
    match s.pollers[i]
    case Decoding(got, _) => 2 + |EventTrace(s.storage, s.v108)| - |got|
    case Leaving(_, _) => 1
    case _ => 0
  }

  predicate HasEvent(p: Poller) {
    p.Decoding? || p.Leaving? || p.Returned?
  }

  /** How many of the steps are those of poll i. */
  function StepsOf(ls: seq<Label>, i: nat): nat {
    if ls == [] then 0 else Bit(ls[0].Step? && ls[0].i == i) + StepsOf(ls[1..], i)
  }

  /** A step of the poll leaves it one step less; a step of anybody else leaves it as it was. */
  lemma LeftShrinks(s: State, i: nat, l: Label)
    requires Inv(s) && Enabled(s, l) && i < |s.pollers| && HasEvent(s.pollers[i])
    ensures Inv(Apply(s, l)) && i < |Apply(s, l).pollers| && HasEvent(Apply(s, l).pollers[i])
    ensures Left(Apply(s, l), i) + Bit(l.Step? && l.i == i) <= Left(s, i)
  {
    InvKept(s, l);
    if l.Step? && l.i == i { OwnStepShrinks(s, i, l.woken); } else { OtherStepKeeps(s, i, l); }
    hide Inv, Apply, Enabled, Left;
  }

  lemma OwnStepShrinks(s: State, i: nat, woken: bool)
    requires Inv(s) && Enabled(s, Step(i, woken)) && HasEvent(s.pollers[i]) && Inv(Apply(s, Step(i, woken)))
    ensures var t := Apply(s, Step(i, woken));
            i < |t.pollers| && HasEvent(t.pollers[i]) && Left(t, i) < Left(s, i)
  {
    hide EventFrom, EventTrace, FromRaw, Answer;
    assert PollerAt(s, i);
    if s.pollers[i].Decoding? { ReadIsNext(s.storage, s.v108, s.pollers[i].got); }
  }

  lemma OtherStepKeeps(s: State, i: nat, l: Label)
    requires Inv(s) && Enabled(s, l) && i < |s.pollers| && HasEvent(s.pollers[i]) && Inv(Apply(s, l))
    requires l.Step? ==> l.i != i
    ensures var t := Apply(s, l);
            i < |t.pollers| && HasEvent(t.pollers[i]) && Left(t, i) == Left(s, i)
  {
    hide EventFrom, EventTrace, FromRaw, Answer;
    assert PollerAt(s, i);
    if l.Step? { assert PollerAt(s, l.i); }
  }

  /** In every run, with any other pollers and posts in between, a poll that has its event takes
      at most the steps it has left: its reads, the end of the decode, and its return. */
  lemma {:induction false} HolderRunsAreBounded(s: State, i: nat, ls: seq<Label>)
    requires Inv(s) && i < |s.pollers| && HasEvent(s.pollers[i]) && Legal(s, ls)
    ensures Inv(Exec(s, ls)) && i < |Exec(s, ls).pollers| && HasEvent(Exec(s, ls).pollers[i])
    ensures StepsOf(ls, i) + Left(Exec(s, ls), i) <= Left(s, i)
    decreases |ls|
  {
    if ls != [] {
      LeftShrinks(s, i, ls[0]);
      hide Apply, Inv, Enabled, EventTrace, Left;
      HolderRunsAreBounded(Apply(s, ls[0]), i, ls[1..]);
    }
  }

  /** It never waits on the way: it can always take its next step until it has returned. */
  lemma HolderNeverWaits(s: State, i: nat, woken: bool)
    requires Inv(s) && i < |s.pollers| && HasEvent(s.pollers[i])
    ensures Enabled(s, Step(i, woken)) <==> Left(s, i) > 0
  {
    assert PollerAt(s, i);
  }

  /** A poll that has the lock and its event gets through, in as many steps as the event has
      reads left: other pollers wait only for a decode, never for an event. */
  lemma {:induction false} HolderReturns(s: State, i: nat, left: nat) returns (ls: seq<Label>)
    requires Inv(s) && s.lock == Some(i) && !s.pollers[i].Locked?
    requires s.pollers[i].Decoding? ==> left == 2 + |EventTrace(s.storage, s.v108)| - |s.pollers[i].got|
    requires s.pollers[i].Leaving? ==> left == 1
    ensures Legal(s, ls) && |ls| <= left
    ensures Exec(s, ls).lock.None? && i < |Exec(s, ls).pollers| && Exec(s, ls).pollers[i].Returned?
    decreases left
  {
    assert PollerAt(s, i);
    var l := Step(i, false);
    var t := Apply(s, l);
    if s.pollers[i].Leaving? {
      ls := [l];
      assert Legal(t, ls[1..]);
    } else {
      EventTracks(s.storage, s.v108, s.pollers[i].got);
      InvKept(s, l);
      assert PollerAt(t, i);
      hide Apply, Inv, Enabled, EventFrom, EventTrace;
      var rest := HolderReturns(t, i, if t.pollers[i].Decoding? then left - 1 else 1);
      ls := [l] + rest;
      assert ls[1..] == rest;
    }
  }
}
