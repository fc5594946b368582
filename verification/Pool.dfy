/**
 * The controller's event pipeline: emitters push on a queue, one event loop pops and hands each
 * event to a worker of the thread pool, and the workers run them.  Every step below is one
 * indivisible action of one thread; runs interleave them in any order.
 */
module Pool {
  /** Where a worker thread is: waiting for its flag, in its task, after it, or about to unlock. */
  datatype Phase = Waiting | Running | Finished | Releasing

  /** `owned` is the ownership mutex; the task is an event, named by its place in emission order. */
  datatype Worker = Worker(owned: bool, start: bool, task: nat, phase: Phase)

  /** The event loop: empty-handed, looking for a worker, owning one, or about to start one. */
  datatype Hand = Empty | Seeking(event: nat, index: nat) | Acquired(event: nat, worker: nat) | Starting(worker: nat)

  datatype State = State(
    emitted: nat,        // events emitted so far
    queue: seq<nat>,
    hand: Hand,
    workers: seq<Worker>,
    begun: seq<nat>,     // events whose task has begun, in order
    done: set<nat>,
    failed: bool)        // the assertion on the start flag has failed

  datatype Move =
    | Emit
    | Pop
    | TryAcquire
    | SetTask
    | SetStart
    | Wake(worker: nat)
    | Finish(worker: nat)
    | ClearStart(worker: nat)
    | Unlock(worker: nat)

  predicate Enabled(s: State, m: Move) {
    match m
    case Emit => true
    case Pop => s.hand.Empty? && s.queue != []
    case TryAcquire => s.hand.Seeking? && s.workers != []
    case SetTask => s.hand.Acquired? && s.hand.worker < |s.workers|
    case SetStart => s.hand.Starting? && s.hand.worker < |s.workers|
    case Wake(w) => w < |s.workers| && s.workers[w].phase == Waiting && s.workers[w].start
    case Finish(w) => w < |s.workers| && s.workers[w].phase == Running
    case ClearStart(w) => w < |s.workers| && s.workers[w].phase == Finished
    case Unlock(w) => w < |s.workers| && s.workers[w].phase == Releasing
  }

  function Put(s: State, w: nat, worker: Worker): State
    requires w < |s.workers|
  {
    s.(workers := s.workers[w := worker])
  }

  function Do(s: State, m: Move): State
    requires Enabled(s, m)
  {
    match m
    case Emit => s.(queue := s.queue + [s.emitted], emitted := s.emitted + 1)
    case Pop => s.(hand := Seeking(s.queue[0], 0), queue := s.queue[1..])
    case TryAcquire =>
      var w := s.hand.index % |s.workers|;
      if s.workers[w].owned then s.(hand := Seeking(s.hand.event, s.hand.index + 1))
      else Put(s, w, s.workers[w].(owned := true)).(hand := Acquired(s.hand.event, w))
    case SetTask =>
      var w := s.hand.worker;
      Put(s, w, s.workers[w].(task := s.hand.event)).(hand := Starting(w))
    case SetStart =>
      var w := s.hand.worker;
      if s.workers[w].start then s.(failed := true)
      else Put(s, w, s.workers[w].(start := true)).(hand := Empty)
    case Wake(w) => Put(s, w, s.workers[w].(phase := Running)).(begun := s.begun + [s.workers[w].task])
    case Finish(w) => Put(s, w, s.workers[w].(phase := Finished)).(done := s.done + {s.workers[w].task})
    case ClearStart(w) => Put(s, w, s.workers[w].(start := false, phase := Releasing))
    case Unlock(w) => Put(s, w, s.workers[w].(owned := false, phase := Waiting))
  }

  // ----- Places

  predicate InHand(s: State, event: nat) {
    (s.hand.Seeking? || s.hand.Acquired?) && s.hand.event == event
  }

  /** The worker's task is set and has not finished. */
  predicate Busy(s: State, w: nat)
    requires w < |s.workers|
  {
    s.hand == Starting(w) || (s.workers[w].start && (s.workers[w].phase == Waiting || s.workers[w].phase == Running))
  }

  predicate InSlot(s: State, event: nat, w: nat) {
    w < |s.workers| && Busy(s, w) && s.workers[w].task == event
  }

  ghost predicate InSomeSlot(s: State, event: nat) {
    exists w :: InSlot(s, event, w)
  }

  function Popped(s: State): int {
    s.emitted - |s.queue|
  }

  // ----- Invariant

  /** A worker's flag, phase and mutex fit together, and fit what the event loop is doing. */
  predicate WorkerOk(s: State, w: nat)
    requires w < |s.workers|
  {
    var k := s.workers[w];
    var mine := (s.hand.Acquired? && s.hand.worker == w) || s.hand == Starting(w);
    && (k.phase == Running || k.phase == Finished ==> k.start)
    && (k.phase == Releasing ==> !k.start)
    && (mine ==> !k.start && k.phase == Waiting)
    && (k.owned <==> mine || k.start || k.phase != Waiting)
  }

  /** Emission order is queue order, and nothing not yet popped is anywhere else. */
  ghost predicate Fifo(s: State) {
    && Popped(s) >= 0
    && (forall i :: 0 <= i < |s.queue| ==> s.queue[i] == Popped(s) + i)
  }

  /** Every popped event is in the hand, in a slot, or done, and in one of them only. */
  ghost predicate Placed(s: State) {
    && (forall k: nat :: k < Popped(s) ==> InHand(s, k) || InSomeSlot(s, k) || k in s.done)
    && (forall k: nat :: InHand(s, k) ==> k < Popped(s) && k !in s.done && !InSomeSlot(s, k))
    && (forall k: nat, w: nat :: InSlot(s, k, w) ==> k < Popped(s) && k !in s.done)
    && (forall k: nat, v: nat, w: nat :: InSlot(s, k, v) && InSlot(s, k, w) ==> v == w)
    && (forall k :: k in s.done ==> k < Popped(s))
  }

  /** What has begun is done or running, and nothing has begun twice. */
  ghost predicate BegunOk(s: State) {
    && (forall i :: 0 <= i < |s.begun| ==>
          s.begun[i] in s.done || exists w: nat :: InSlot(s, s.begun[i], w) && s.workers[w].phase == Running)
    && (forall i, j :: 0 <= i < j < |s.begun| ==> s.begun[i] != s.begun[j])
  }

  ghost predicate Inv(s: State) {
    && !s.failed && Fifo(s) && Placed(s) && BegunOk(s)
    && (s.hand.Acquired? || s.hand.Starting? ==> s.hand.worker < |s.workers|)
    && forall w :: 0 <= w < |s.workers| ==> WorkerOk(s, w)
  }

  // ----- Every step keeps it

  /** The same workers are busy, with the same tasks, in the same phases. */
  ghost predicate SameSlots(s: State, t: State) {
    && |s.workers| == |t.workers|
    && forall w :: 0 <= w < |s.workers| ==>
         && Busy(s, w) == Busy(t, w)
         && (Busy(s, w) ==> s.workers[w].task == t.workers[w].task && s.workers[w].phase == t.workers[w].phase)
  }

  lemma SlotsFrame(s: State, t: State)
    requires SameSlots(s, t)
    ensures forall k: nat, w: nat :: InSlot(s, k, w) <==> InSlot(t, k, w)
    ensures forall k: nat :: InSomeSlot(s, k) <==> InSomeSlot(t, k)
    ensures s.begun == t.begun && s.done == t.done && BegunOk(s) ==> BegunOk(t)
  {
    forall k: nat ensures InSomeSlot(s, k) <==> InSomeSlot(t, k) {
      if w: nat :| InSlot(s, k, w) {
        assert InSlot(t, k, w);
      }
      if w: nat :| InSlot(t, k, w) {
        assert InSlot(s, k, w);
      }
    }
    if s.begun == t.begun && s.done == t.done && BegunOk(s) {
      forall i | 0 <= i < |t.begun|
        ensures t.begun[i] in t.done || exists w: nat :: InSlot(t, t.begun[i], w) && t.workers[w].phase == Running
      {
        if t.begun[i] !in t.done {
          var w: nat :| InSlot(s, s.begun[i], w) && s.workers[w].phase == Running;
          assert InSlot(t, t.begun[i], w) && t.workers[w].phase == Running;
        }
      }
    }
  }

  /** Steps that leave the slots alone, and move no event out of the hand. */
  lemma FrameKeeps(s: State, t: State)
    requires Inv(s) && SameSlots(s, t) && !t.failed
    requires t.begun == s.begun && t.done == s.done && Fifo(t) && Popped(t) == Popped(s)
    requires forall k: nat :: InHand(t, k) <==> InHand(s, k)
    requires t.hand.Acquired? || t.hand.Starting? ==> t.hand.worker < |t.workers|
    requires forall w :: 0 <= w < |t.workers| ==> WorkerOk(t, w)
    ensures Inv(t)
  {
    SlotsFrame(s, t);
  }

  lemma EmitKeeps(s: State)
    requires Inv(s)
    ensures Inv(Do(s, Emit))
  {
    var t := Do(s, Emit);
    forall w | 0 <= w < |t.workers| ensures WorkerOk(t, w) {
      assert WorkerOk(s, w);
    }
    FrameKeeps(s, t);
  }

  lemma PopKeeps(s: State)
    requires Inv(s) && Enabled(s, Pop)
    ensures Inv(Do(s, Pop))
  {
    var t := Do(s, Pop);
    forall w | 0 <= w < |t.workers| ensures WorkerOk(t, w) {
      assert WorkerOk(s, w);
    }
    SlotsFrame(s, t);
    assert InHand(t, s.queue[0]);
    assert forall k: nat :: InHand(t, k) <==> k == s.queue[0];
  }

  lemma TryAcquireKeeps(s: State)
    requires Inv(s) && Enabled(s, TryAcquire)
    ensures Inv(Do(s, TryAcquire))
  {
    var t := Do(s, TryAcquire);
    forall w | 0 <= w < |t.workers| ensures WorkerOk(t, w) {
      assert WorkerOk(s, w);
    }
    FrameKeeps(s, t);
  }

  /** The slot the event goes to is not busy: no task is overwritten. */
  lemma SetTaskKeeps(s: State)
    requires Inv(s) && Enabled(s, SetTask)
    ensures !Busy(s, s.hand.worker) && Inv(Do(s, SetTask))
  {
    var t, w, event := Do(s, SetTask), s.hand.worker, s.hand.event;
    assert WorkerOk(s, w);
    forall v | 0 <= v < |t.workers| ensures WorkerOk(t, v) {
      assert WorkerOk(s, v);
    }
    assert forall k: nat, v: nat :: InSlot(t, k, v) <==> InSlot(s, k, v) || (v == w && k == event);
    forall k: nat ensures InSomeSlot(t, k) <==> InSomeSlot(s, k) || k == event {
      SlotGained(s, t, k, w, event);
    }
    assert InHand(s, event);
    assert forall k: nat :: !InHand(t, k);
    forall i | 0 <= i < |t.begun|
      ensures t.begun[i] in t.done || exists v: nat :: InSlot(t, t.begun[i], v) && t.workers[v].phase == Running
    {
      if t.begun[i] !in t.done {
        var v: nat :| InSlot(s, s.begun[i], v) && s.workers[v].phase == Running;
        assert InSlot(t, t.begun[i], v) && t.workers[v].phase == Running;
      }
    }
  }

  lemma SlotGained(s: State, t: State, k: nat, w: nat, event: nat)
    requires forall v: nat :: InSlot(t, k, v) <==> InSlot(s, k, v) || (v == w && k == event)
    ensures InSomeSlot(t, k) <==> InSomeSlot(s, k) || k == event
  {
    if v: nat :| InSlot(s, k, v) {
      assert InSlot(t, k, v);
    }
    if k == event {
      assert InSlot(t, k, w);
    }
  }

  /** The flag is clear whenever the event loop sets it: the assertion in runTask holds. */
  lemma SetStartKeeps(s: State)
    requires Inv(s) && Enabled(s, SetStart)
    ensures !s.workers[s.hand.worker].start && Inv(Do(s, SetStart))
  {
    var t := Do(s, SetStart);
    assert WorkerOk(s, s.hand.worker);
    forall w | 0 <= w < |t.workers| ensures WorkerOk(t, w) {
      assert WorkerOk(s, w);
    }
    FrameKeeps(s, t);
  }

  /** The task that begins has not begun before. */
  lemma WakeKeeps(s: State, w: nat)
    requires Inv(s) && Enabled(s, Wake(w))
    ensures s.workers[w].task !in s.begun && Inv(Do(s, Wake(w)))
  {
    var t, event := Do(s, Wake(w)), s.workers[w].task;
    assert InSlot(s, event, w);
    forall v | 0 <= v < |t.workers| ensures WorkerOk(t, v) {
      assert WorkerOk(s, v);
    }
    assert forall k: nat, v: nat :: InSlot(t, k, v) <==> InSlot(s, k, v);
    forall k: nat ensures InSomeSlot(t, k) <==> InSomeSlot(s, k) {
      SlotKept(s, t, k);
    }
    assert forall k: nat :: InHand(t, k) <==> InHand(s, k);
    assert InSlot(t, event, w) && t.workers[w].phase == Running;
    forall i | 0 <= i < |s.begun|
      ensures s.begun[i] != event
      ensures s.begun[i] in t.done || exists v: nat :: InSlot(t, s.begun[i], v) && t.workers[v].phase == Running
    {
      if s.begun[i] !in s.done {
        var v: nat :| InSlot(s, s.begun[i], v) && s.workers[v].phase == Running;
        assert InSlot(t, s.begun[i], v) && t.workers[v].phase == Running;
      }
    }
  }

  lemma SlotKept(s: State, t: State, k: nat)
    requires forall v: nat :: InSlot(t, k, v) <==> InSlot(s, k, v)
    ensures InSomeSlot(t, k) <==> InSomeSlot(s, k)
  {
    if v: nat :| InSlot(s, k, v) {
      assert InSlot(t, k, v);
    }
    if v: nat :| InSlot(t, k, v) {
      assert InSlot(s, k, v);
    }
  }

  /** The task that ends was not done before. */
  lemma FinishKeeps(s: State, w: nat)
    requires Inv(s) && Enabled(s, Finish(w))
    ensures s.workers[w].task !in s.done && Inv(Do(s, Finish(w)))
  {
    var t, event := Do(s, Finish(w)), s.workers[w].task;
    assert WorkerOk(s, w);
    assert InSlot(s, event, w);
    forall v | 0 <= v < |t.workers| ensures WorkerOk(t, v) {
      assert WorkerOk(s, v);
    }
    assert forall k: nat, v: nat :: InSlot(t, k, v) <==> InSlot(s, k, v) && v != w;
    forall k: nat ensures InSomeSlot(t, k) <==> InSomeSlot(s, k) && k != event {
      SlotLost(s, t, k, w, event);
    }
    assert forall k: nat :: InHand(t, k) <==> InHand(s, k);
    assert InSomeSlot(s, event);
    forall i | 0 <= i < |t.begun|
      ensures t.begun[i] in t.done || exists v: nat :: InSlot(t, t.begun[i], v) && t.workers[v].phase == Running
    {
      if t.begun[i] !in t.done {
        var v: nat :| InSlot(s, s.begun[i], v) && s.workers[v].phase == Running;
        assert InSlot(t, t.begun[i], v) && t.workers[v].phase == Running;
      }
    }
  }

  lemma SlotLost(s: State, t: State, k: nat, w: nat, event: nat)
    requires forall v: nat :: InSlot(t, k, v) <==> InSlot(s, k, v) && v != w
    requires InSlot(s, event, w) && forall v: nat :: InSlot(s, event, v) ==> v == w
    requires forall v: nat :: InSlot(s, k, v) && v == w ==> k == event
    ensures InSomeSlot(t, k) <==> InSomeSlot(s, k) && k != event
  {
    if v: nat :| InSlot(s, k, v) {
      if k != event {
        assert InSlot(t, k, v);
      }
    }
    if v: nat :| InSlot(t, k, v) {
      assert InSlot(s, k, v);
    }
  }

  lemma AfterwardsKeeps(s: State, m: Move)
    requires Inv(s) && Enabled(s, m) && (m.ClearStart? || m.Unlock?)
    ensures Inv(Do(s, m))
  {
    var t := Do(s, m);
    assert WorkerOk(s, m.worker);
    forall w | 0 <= w < |t.workers| ensures WorkerOk(t, w) {
      assert WorkerOk(s, w);
    }
    FrameKeeps(s, t);
  }

  lemma StepKeeps(s: State, m: Move)
    requires Inv(s) && Enabled(s, m)
    ensures Inv(Do(s, m))
  {
    hide Inv, Do;
    match m
    case Emit => EmitKeeps(s);
    case Pop => PopKeeps(s);
    case TryAcquire => TryAcquireKeeps(s);
    case SetTask => SetTaskKeeps(s);
    case SetStart => SetStartKeeps(s);
    case Wake(w) => WakeKeeps(s, w);
    case Finish(w) => FinishKeeps(s, w);
    case ClearStart(w) => AfterwardsKeeps(s, m);
    case Unlock(w) => AfterwardsKeeps(s, m);
  }

  // ----- Runs

  function Initial(workers: nat): State {
    State(0, [], Empty, seq(workers, _ => Worker(false, false, 0, Waiting)), [], {}, false)
  }

  /** Each move of the run is possible where it is made. */
  ghost predicate Possible(s: State, moves: seq<Move>)
    decreases |moves|
  {
    moves == [] || (Enabled(s, moves[0]) && Possible(Do(s, moves[0]), moves[1..]))
  }

  ghost function Run(s: State, moves: seq<Move>): State
    requires Possible(s, moves)
    decreases |moves|
  {
    if moves == [] then s else Run(Do(s, moves[0]), moves[1..])
  }

  lemma {:induction false} RunKeeps(s: State, moves: seq<Move>)
    requires Inv(s) && Possible(s, moves)
    ensures Inv(Run(s, moves))
    decreases |moves|
  {
    hide Inv, Do, Enabled;
    if moves != [] {
      StepKeeps(s, moves[0]);
      RunKeeps(Do(s, moves[0]), moves[1..]);
    }
  }

  /** One and only one of four. */
  predicate OneOf(a: bool, b: bool, c: bool, d: bool) {
    (a || b || c || d) && !(a && b) && !(a && c) && !(a && d) && !(b && c) && !(b && d) && !(c && d)
  }

  /**
   * Conservation, over every interleaving: each emitted event is in exactly one of the queue, the
   * event loop's hand, one worker's slot, and the events done; the queue holds the latest emitted,
   * in order; no event has begun twice; and the assertion on the start flag has not failed.
   */
  lemma EventsConserved(workers: nat, moves: seq<Move>, event: nat)
    requires Possible(Initial(workers), moves)
    requires event < Run(Initial(workers), moves).emitted
    ensures var s := Run(Initial(workers), moves);
            && OneOf(event in s.queue, InHand(s, event), InSomeSlot(s, event), event in s.done)
            && (forall v: nat, w: nat :: InSlot(s, event, v) && InSlot(s, event, w) ==> v == w)
            && (forall i, j :: 0 <= i < j < |s.begun| ==> s.begun[i] != s.begun[j])
            && !s.failed
    ensures var s := Run(Initial(workers), moves);
            |s.queue| <= s.emitted && forall i :: 0 <= i < |s.queue| ==> s.queue[i] == s.emitted - |s.queue| + i
  {
    hide Run, Possible;
    InitialOk(workers);
    RunKeeps(Initial(workers), moves);
    var s := Run(Initial(workers), moves);
    if event >= Popped(s) {
      assert s.queue[event - Popped(s)] == event;
    }
  }

  lemma InitialOk(workers: nat)
    ensures Inv(Initial(workers))
  {
    var s := Initial(workers);
    assert forall k: nat, w: nat :: !InSlot(s, k, w);
    assert forall w :: 0 <= w < |s.workers| ==> WorkerOk(s, w);
  }
}
