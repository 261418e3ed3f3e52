/** What the pool promises. */
module PoolTheorems {
  import opened Words
  import opened Prelude
  import opened Pool
  import opened PoolProof

  ghost predicate Reached(s: State) {
    exists es: seq<Event> :: Run(Init(s.workers), es) == s
  }

  lemma ReachedInv(s: State)
    requires Reached(s)
    ensures Inv(s)
  {
    var es: seq<Event> :| Run(Init(s.workers), es) == s;
    RunInv(s.workers, es);
  }

  // ---------- what one step may touch ----------

  ghost predicate PcsFrame(s: State, s': State, t: Tid) {
    s'.workers == s.workers &&
    forall u | u != t :: At(s', u) == At(s, u) || (At(s, u).WAsleep? && At(s', u).WRelock?)
  }

  /** The stepping thread is at a point that touches no task. */
  predicate LeavesTasks(s: State, pc: Pc) {
    !pc.SPush? && !pc.WRun? && !pc.WSet? && (s.queue == [] || (!pc.WTake? && !pc.StopDrain?))
  }

  predicate SameTasks(s: State, s': State) {
    s'.queue == s.queue && s'.fates == s.fates && s'.executed == s.executed && s'.ready == s.ready
  }

  ghost predicate Frame(s: State, s': State, t: Tid) {
    && PcsFrame(s, s', t)
    && (LeavesTasks(s, At(s, t)) ==> SameTasks(s, s'))
    && (s.stopping ==> s'.stopping && s'.pendingAtStop == s.pendingAtStop)
    && (s.drained ==> s'.drained)
  }

  /** A step that writes one program counter, frame by frame condition. */
  lemma GotoFrame(s: State, s': State, t: Tid)
    requires s'.workers == s.workers && (s'.pcs == s.pcs || (t in s'.pcs && s'.pcs == s.pcs[t := s'.pcs[t]]))
    requires LeavesTasks(s, At(s, t)) ==> SameTasks(s, s')
    requires s.stopping ==> s'.stopping && s'.pendingAtStop == s.pendingAtStop
    requires s.drained ==> s'.drained
    ensures Frame(s, s', t)
  {
  }

  lemma WorkerInsideFrame(s: State, t: Tid)
    requires InLock(At(s, t))
    ensures Frame(s, WorkerStep(s, t), t)
  {
    match At(s, t)
    case WEmptyLoop => GotoFrame(s, WorkerStep(s, t), t);
    case WStopLoop => GotoFrame(s, WorkerStep(s, t), t);
    case WEmptyTest => GotoFrame(s, WorkerStep(s, t), t);
    case WStopTest => GotoFrame(s, WorkerStep(s, t), t);
    case WTake => GotoFrame(s, WorkerStep(s, t), t);
    case WSub(_) => GotoFrame(s, WorkerStep(s, t), t);
    case WUnlock(_) => GotoFrame(s, WorkerStep(s, t), t);
    case _ =>
  }

  lemma WorkerOutsideFrame(s: State, t: Tid)
    requires !InLock(At(s, t))
    ensures Frame(s, WorkerStep(s, t), t)
  {
    match At(s, t)
    case WTop => GotoFrame(s, WorkerStep(s, t), t);
    case WPauseTest => GotoFrame(s, WorkerStep(s, t), t);
    case WLock => GotoFrame(s, WorkerStep(s, t), t);
    case WAsleep => GotoFrame(s, WorkerStep(s, t), t);
    case WRelock => GotoFrame(s, WorkerStep(s, t), t);
    case WRun(_) => GotoFrame(s, WorkerStep(s, t), t);
    case WSet(_) => GotoFrame(s, WorkerStep(s, t), t);
    case _ =>
  }

  lemma WorkerFrame(s: State, t: Tid)
    ensures Frame(s, WorkerStep(s, t), t)
  {
    if InLock(At(s, t)) {
      WorkerInsideFrame(s, t);
    } else {
      WorkerOutsideFrame(s, t);
    }
  }

  lemma StopWaitFrame(s: State, t: Tid)
    requires At(s, t).StopExchange? || At(s, t).StopNotify? || At(s, t).StopPoll? || At(s, t).StopJoin?
    ensures Frame(s, StopStep(s, t), t)
  {
    match At(s, t)
    case StopNotify(wait) => WakeMoves(s, t, if wait then StopPoll else StopJoin(0), t);
    case StopExchange(_) => GotoFrame(s, StopStep(s, t), t);
    case StopPoll => GotoFrame(s, StopStep(s, t), t);
    case StopJoin(_) => GotoFrame(s, StopStep(s, t), t);
  }

  lemma StopEndFrame(s: State, t: Tid)
    requires AfterJoin(At(s, t))
    ensures Frame(s, StopStep(s, t), t)
  {
    match At(s, t)
    case StopLock => GotoFrame(s, StopStep(s, t), t);
    case StopDrain => GotoFrame(s, StopStep(s, t), t);
    case StopUnlock => GotoFrame(s, StopStep(s, t), t);
    case StopZero => GotoFrame(s, StopStep(s, t), t);
    case StopStore => GotoFrame(s, StopStep(s, t), t);
  }

  lemma CallFrame(s: State, t: Tid, e: Event)
    requires At(s, t).Idle? || At(s, t).SNotify? || At(s, t).ResumeNotify? || At(s, t).PauseStore?
    ensures Frame(s, ClientStep(s, t, e), t)
  {
    match At(s, t)
    case SNotify => WakeMoves(s, t, Idle, e.pick);
    case ResumeNotify => WakeMoves(s, t, Idle, e.pick);
    case Idle => GotoFrame(s, ClientStep(s, t, e), t);
    case PauseStore(_) => GotoFrame(s, ClientStep(s, t, e), t);
  }

  lemma SubmitFrame(s: State, t: Tid, e: Event)
    requires At(s, t).SLock? || At(s, t).SPush? || At(s, t).SAdd? || At(s, t).SUnlock?
    ensures Frame(s, ClientStep(s, t, e), t)
  {
    match At(s, t)
    case SLock => GotoFrame(s, ClientStep(s, t, e), t);
    case SPush => GotoFrame(s, ClientStep(s, t, e), t);
    case SAdd => GotoFrame(s, ClientStep(s, t, e), t);
    case SUnlock => GotoFrame(s, ClientStep(s, t, e), t);
  }

  lemma ClientFrame(s: State, t: Tid, e: Event)
    ensures Frame(s, ClientStep(s, t, e), t)
  {
    var pc := At(s, t);
    if pc.Idle? || pc.SNotify? || pc.ResumeNotify? || pc.PauseStore? {
      CallFrame(s, t, e);
    } else if pc.SLock? || pc.SPush? || pc.SAdd? || pc.SUnlock? {
      SubmitFrame(s, t, e);
    } else {
      assert ClientStep(s, t, e) == StopStep(s, t);
      if AfterJoin(pc) {
        StopEndFrame(s, t);
      } else if pc.StopExchange? || InStop(pc) {
        StopWaitFrame(s, t);
      }
    }
  }

  lemma StepFrame(s: State, e: Event)
    ensures Frame(s, Step(s, e), e.tid)
  {
    if e.tid < s.workers {
      WorkerFrame(s, e.tid);
    } else {
      ClientFrame(s, e.tid, e);
    }
  }

  lemma ReachedStep(s: State, e: Event)
    requires Reached(s)
    ensures Reached(Step(s, e))
  {
    var es: seq<Event> :| Run(Init(s.workers), es) == s;
    StepFrame(s, e);
    assert (es + [e])[..|es|] == es;
    var s' := Run(Init(s.workers), es + [e]);
    assert s' == Step(s, e) && s'.workers == s.workers;
  }

  // ---------- conservation ----------

  /**
   Every submitted task is in exactly one place: in the queue, carried by one worker and no other, run by one
   worker that is about to set its promise, run with its promise set, or discarded.  The log of tasks run repeats
   nothing.
   */
  lemma TaskConservation(s: State, k: Ticket)
    requires Reached(s) && k < |s.fates|
    ensures k in s.queue <==> s.fates[k].Queued?
    ensures forall t :: Carried(At(s, t)) == Some(k) <==> s.fates[k] == Held(t)
    ensures forall t :: Settling(At(s, t)) == Some(k) <==> s.fates[k] == Ran(t)
    ensures k in s.ready <==> s.fates[k].Executed?
    ensures k in s.executed <==> s.fates[k].Ran? || s.fates[k].Executed?
    ensures Distinct(s.executed)
  {
    ReachedInv(s);
    assert FateOk(s, k);
    var lo := |s.fates| - |s.queue|;
    if k >= lo {
      assert s.queue[k - lo] == k;
    }
    forall t ensures Carried(At(s, t)) == Some(k) <==> s.fates[k] == Held(t) {
      assert ThreadOk(s, t);
    }
    forall t ensures Settling(At(s, t)) == Some(k) <==> s.fates[k] == Ran(t) {
      assert ThreadOk(s, t);
    }
  }

  /**
   The future of a task is set only after its function ran, and from then on some worker sets it at its next step
   unless it is set already.
   */
  lemma FutureIsSetAfterTheTask(s: State, k: Ticket)
    requires Reached(s)
    ensures k in s.ready ==> k in s.executed
    ensures k in s.executed && k !in s.ready ==>
              exists w: Tid :: w < s.workers && At(s, w) == WSet(k) && WorkerStep(s, w).ready == s.ready + {k}
  {
    ReachedInv(s);
    if k in s.executed || k in s.ready {
      assert FateOk(s, k);
      if k !in s.ready {
        var w := s.fates[k].worker;
        assert ThreadOk(s, w) && At(s, w) == WSet(k);
      }
    }
  }

  /**
   A task moves from the queue to a worker, which runs it and then sets its promise, or is discarded from the
   queue.
   */
  ghost predicate FateMayBecome(a: Fate, b: Fate) {
    match a
    case Queued => b.Queued? || b.Held? || b.Discarded?
    case Held(w) => b == a || b == Ran(w)
    case Ran(_) => b == a || b.Executed?
    case _ => b == a
  }

  lemma FatesAreFinal(s: State, e: Event)
    requires Reached(s)
    ensures |s.fates| <= |Step(s, e).fates|
    ensures forall k | 0 <= k < |s.fates| :: FateMayBecome(s.fates[k], Step(s, e).fates[k])
    ensures s.executed <= Step(s, e).executed && |Step(s, e).executed| <= |s.executed| + 1
  {
    ReachedInv(s);
    StepFrame(s, e);
    assert ThreadOk(s, e.tid);
    var pc := At(s, e.tid);
    if pc.WTake? {
      assert FateOk(s, s.queue[0]);
    } else if pc.StopDrain? && s.queue != [] {
      assert FateOk(s, s.queue[0]);
    } else if pc.WRun? {
      assert Step(s, e).fates == s.fates[pc.task := Ran(e.tid)];
    } else if pc.WSet? {
      assert Step(s, e).fates == s.fates[pc.task := Executed];
    } else if pc.SPush? {
      assert Step(s, e).fates == s.fates + [Queued];
    }
  }

  /**
   Over any later schedule a finished task stays finished and its future set, and it is not run again; a discarded
   one is never run and its future is never set.
   */
  lemma {:induction false} SettledTasksStaySettled(s: State, es: seq<Event>, k: Ticket)
    requires Reached(s) && k < |s.fates| && (s.fates[k].Executed? || s.fates[k].Discarded?)
    ensures Reached(Run(s, es)) && k < |Run(s, es).fates| && Run(s, es).fates[k] == s.fates[k]
    ensures k in Run(s, es).executed <==> s.fates[k].Executed?
    ensures k in Run(s, es).ready <==> s.fates[k].Executed?
    ensures Distinct(Run(s, es).executed)
    decreases |es|
  {
    if es == [] {
    } else {
      var before := Run(s, es[..|es| - 1]);
      SettledTasksStaySettled(s, es[..|es| - 1], k);
      FatesAreFinal(before, es[|es| - 1]);
      ReachedStep(before, es[|es| - 1]);
    }
    TaskConservation(Run(s, es), k);
  }

  ghost predicate QueueMoves(s: State, s': State) {
    s'.queue == s.queue || s'.queue == s.queue + [|s.fates|] || (s.queue != [] && s'.queue == s.queue[1..])
  }

  lemma StepQueue(s: State, e: Event)
    requires Inv(s)
    ensures QueueMoves(s, Step(s, e))
  {
    StepFrame(s, e);
    assert ThreadOk(s, e.tid);
    if At(s, e.tid).SPush? {
      assert Step(s, e) == ClientStep(s, e.tid, e);
    }
  }

  /** Tasks leave the queue in the order they entered it, each step taking the oldest one still there. */
  lemma FirstInFirstOut(s: State, e: Event)
    requires Reached(s)
    ensures var s', oldest := Step(s, e), |s.fates| - |s.queue|;
            && 0 <= oldest
            && (forall i | 0 <= i < |s.queue| :: s.queue[i] == oldest + i)
            && QueueMoves(s, s')
            && (At(s, e.tid).WTake? ==> At(s', e.tid) == WSub(oldest))
  {
    ReachedInv(s);
    StepQueue(s, e);
    assert ThreadOk(s, e.tid);
  }

  /** Until the drain, the pending count is the queue length whenever the lock is free, and it never wraps. */
  lemma PendingIsQueueLength(s: State)
    requires Reached(s)
    ensures !s.drained && s.holder == None ==> s.pending == |s.queue|
    ensures forall t :: At(s, t).WSub? ==> s.pending > 0
  {
    ReachedInv(s);
    forall t | At(s, t).WSub? ensures s.pending > 0 {
      assert ThreadOk(s, t);
    }
  }

  // ---------- shutdown ----------

  /** After the stop flag is set the workers subtract from the pending count at most once, however many there are. */
  lemma AtMostOneMoreSubtraction(s: State)
    requires Reached(s)
    ensures s.subsSince <= 1
    ensures s.stopping && !s.drained ==> s.pending == s.pendingAtStop + s.addsSince - s.subsSince
  {
    ReachedInv(s);
  }

  /** `Stop(true)` leaves its wait only if at most one task was pending when it set the flag. */
  lemma StopLeavesOnlyIfAtMostOnePending(s: State, e: Event)
    requires Reached(s) && At(s, e.tid).StopPoll? && At(Step(s, e), e.tid) != StopPoll
    ensures s.pendingAtStop + s.addsSince <= 1 && s.stopper == Some(e.tid)
  {
    ReachedInv(s);
    assert ThreadOk(s, e.tid);
  }

  lemma StopWithTwoPendingStays(s: State, t: Tid, e: Event)
    requires Reached(s) && At(s, t).StopPoll? && s.pendingAtStop >= 2
    ensures At(Step(s, e), t).StopPoll? && Step(s, e).pendingAtStop == s.pendingAtStop && Reached(Step(s, e))
  {
    ReachedInv(s);
    ReachedStep(s, e);
    StepFrame(s, e);
    assert ThreadOk(s, t);
    assert s.pending > 0;
  }

  /** With two or more pending it waits forever: no schedule at all moves it on. */
  lemma {:induction false} StopWithTwoPendingNeverReturns(s: State, t: Tid, es: seq<Event>)
    requires Reached(s) && At(s, t).StopPoll? && s.pendingAtStop >= 2
    ensures At(Run(s, es), t).StopPoll? && Run(s, es).pendingAtStop == s.pendingAtStop && Reached(Run(s, es))
    decreases |es|
  {
    if es == [] {
    } else {
      StopWithTwoPendingNeverReturns(s, t, es[..|es| - 1]);
      StopWithTwoPendingStays(Run(s, es[..|es| - 1]), t, es[|es| - 1]);
    }
  }

  /** Once the drain has begun every worker has exited, and no task runs any more. */
  lemma NothingRunsAfterDrain(s: State, e: Event)
    requires Reached(s) && s.drained
    ensures Step(s, e).executed == s.executed && Step(s, e).ready == s.ready && Step(s, e).drained
    ensures forall w | 0 <= w < s.workers :: At(s, w).WExit?
  {
    ReachedInv(s);
    StepFrame(s, e);
    assert ThreadOk(s, e.tid);
    if e.tid >= s.workers {
      assert Step(s, e) == ClientStep(s, e.tid, e);
    }
  }

  /** When `Stop` gives the lock back the queue is empty: each task was run and its future set, or it was discarded. */
  lemma DrainEmptiesQueue(s: State, e: Event)
    requires Reached(s) && At(s, e.tid).StopDrain? && !At(Step(s, e), e.tid).StopDrain?
    ensures Step(s, e).queue == [] && At(Step(s, e), e.tid) == StopUnlock
    ensures forall k | 0 <= k < |s.fates| :: (k in s.executed && k in s.ready) || s.fates[k].Discarded?
  {
    ReachedInv(s);
    assert ThreadOk(s, e.tid);
    forall k | 0 <= k < |s.fates| ensures (k in s.executed && k in s.ready) || s.fates[k].Discarded? {
      assert FateOk(s, k);
      assert s.fates[k].Held? || s.fates[k].Ran? ==> ThreadOk(s, s.fates[k].worker);
    }
  }
}
