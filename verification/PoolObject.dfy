/** The pool object: queue, flags and counters updated in place, one access at a time. */
module PoolObject {
  import opened Words
  import opened Prelude
  import opened Pool
  import opened PoolProof

  class ThreadPool {
    const workers: nat
    var holder: Option<Tid>
    var queue: seq<Ticket>
    var pending: nat
    var stopping: bool
    var paused: bool
    var pcs: map<Tid, Pc>
    var ready: set<Ticket>
    var enqueued: nat
    ghost var fates: seq<Fate>
    ghost var executed: seq<Ticket>
    ghost var stopper: Option<Tid>
    ghost var pendingAtStop: nat
    ghost var addsSince: nat
    ghost var subsSince: nat
    ghost var drained: bool

    ghost function View(): State
      reads this
    {
      State(workers, holder, queue, pending, stopping, paused, pcs, ready, fates, executed, stopper, pendingAtStop,
            addsSince, subsSince, drained)
    }

    ghost predicate Valid()
      reads this
    {
      Inv(View()) && enqueued == |fates|
    }

    constructor (workers: nat)
      ensures Valid() && View() == Init(workers)
    {
      this.workers := workers;
      holder, queue, pending, stopping, paused, pcs, ready, enqueued := None, [], 0, false, false, map[], {}, 0;
      fates, executed, stopper, pendingAtStop, addsSince, subsSince, drained := [], [], None, 0, 0, 0, false;
      new;
      InitInv(workers);
    }

    method Current(t: Tid) returns (pc: Pc)
      ensures pc == At(View(), t)
    {
      pc := if t in pcs then pcs[t] else if t < workers then WTop else Idle;
    }

    /** The thread of `e` performs its next access, if the lock lets it. */
    method Advance(e: Event)
      requires Valid()
      modifies this
      ensures View() == Step(old(View()), e) && Valid()
    {
      StepInv(View(), e);
      assert ThreadOk(View(), e.tid);
      var pc := Current(e.tid);
      if e.tid < workers {
        if InLock(pc) {
          WorkInside(e.tid, pc);
        } else {
          WorkOutside(e.tid, pc);
        }
      } else if pc.StopExchange? || InStop(pc) {
        if AfterJoin(pc) {
          Drain(e.tid, pc);
        } else {
          StopAndJoin(e.tid, pc);
        }
      } else {
        Serve(e, pc);
      }
    }

    method WorkInside(t: Tid, pc: Pc)
      requires pc == At(View(), t) && IsWorkerPc(pc) && InLock(pc) && (pc.WTake? ==> queue != [])
      modifies this
      ensures View() == WorkerStep(old(View()), t) && |fates| == old(|fates|) && enqueued == old(enqueued)
    {
      if pc.WTake? || pc.WSub? {
        TakeTask(t, pc);
      } else {
        TestQueue(t, pc);
      }
    }

    method TestQueue(t: Tid, pc: Pc)
      requires pc == At(View(), t) && IsWorkerPc(pc) && InLock(pc) && !pc.WTake? && !pc.WSub?
      modifies this`holder, this`pcs
      ensures View() == WorkerStep(old(View()), t)
    {
      match pc
      case WEmptyLoop => pcs := pcs[t := if queue == [] then WStopLoop else WEmptyTest];
      case WStopLoop =>
        if stopping {
          pcs := pcs[t := WEmptyTest];
        } else {
          holder, pcs := None, pcs[t := WAsleep];
        }
      case WEmptyTest => pcs := pcs[t := if queue == [] then WUnlock(None) else WStopTest];
      case WStopTest => pcs := pcs[t := if stopping then WUnlock(None) else WTake];
      case WUnlock(got) => holder, pcs := None, pcs[t := if got.Some? then WRun(got.value) else WTop];
    }

    method TakeTask(t: Tid, pc: Pc)
      requires pc == At(View(), t) && (pc.WSub? || (pc.WTake? && queue != []))
      modifies this`queue, this`pending, this`pcs, this`fates, this`subsSince
      ensures View() == WorkerStep(old(View()), t) && |fates| == old(|fates|)
    {
      match pc
      case WTake =>
        var task := queue[0];
        fates := SetFate(fates, task, Held(t));
        queue, pcs := queue[1..], pcs[t := WSub(task)];
      case WSub(task) =>
        subsSince := if stopping then subsSince + 1 else subsSince;
        pending := if pending == 0 then WORD - 1 else pending - 1;
        pcs := pcs[t := WUnlock(Some(task))];
    }

    method WorkOutside(t: Tid, pc: Pc)
      requires pc == At(View(), t) && IsWorkerPc(pc) && !InLock(pc)
      modifies this
      ensures View() == WorkerStep(old(View()), t) && |fates| == old(|fates|) && enqueued == old(enqueued)
    {
      match pc
      case WTop => pcs := pcs[t := if stopping then WExit else WPauseTest];
      case WPauseTest => pcs := pcs[t := if paused then WTop else WLock];
      case WAsleep => pcs := pcs[t := WRelock];
      case WRun(task) =>
        executed, fates := executed + [task], SetFate(fates, task, Ran(t));
        pcs := pcs[t := WSet(task)];
      case WSet(task) =>
        fates := SetFate(fates, task, Executed);
        ready, pcs := ready + {task}, pcs[t := WTop];
      case WLock | WRelock =>
        if holder.None? {
          holder, pcs := Some(t), pcs[t := WEmptyLoop];
        }
      case WExit =>
    }

    method Serve(e: Event, pc: Pc)
      requires pc == At(View(), e.tid) && !IsWorkerPc(pc) && !InStop(pc) && !pc.StopExchange? && enqueued == |fates|
      modifies this
      ensures View() == ClientStep(old(View()), e.tid, e) && enqueued == |fates|
    {
      if InLock(pc) {
        Enqueue(e, pc);
      } else {
        BeginOrNotify(e, pc);
      }
    }

    method Enqueue(e: Event, pc: Pc)
      requires pc == At(View(), e.tid) && (pc.SPush? || pc.SAdd? || pc.SUnlock?) && enqueued == |fates|
      modifies this`holder, this`queue, this`pending, this`pcs, this`enqueued, this`fates, this`addsSince
      ensures View() == ClientStep(old(View()), e.tid, e) && enqueued == |fates|
    {
      if pc.SPush? {
        queue, enqueued, pcs := queue + [enqueued], enqueued + 1, pcs[e.tid := SAdd];
        fates := fates + [Queued];
      } else {
        CountAndUnlock(e, pc);
      }
    }

    method CountAndUnlock(e: Event, pc: Pc)
      requires pc == At(View(), e.tid) && (pc.SAdd? || pc.SUnlock?)
      modifies this`holder, this`pending, this`pcs, this`addsSince
      ensures View() == ClientStep(old(View()), e.tid, e)
    {
      match pc
      case SAdd =>
        addsSince := if stopping then addsSince + 1 else addsSince;
        pending, pcs := pending + 1, pcs[e.tid := SUnlock];
      case SUnlock => holder, pcs := None, pcs[e.tid := SNotify];
    }

    method BeginOrNotify(e: Event, pc: Pc)
      requires pc == At(View(), e.tid) && !IsWorkerPc(pc) && !InStop(pc) && !pc.StopExchange? && !InLock(pc)
      modifies this`holder, this`paused, this`pcs
      ensures View() == ClientStep(old(View()), e.tid, e)
    {
      var t := e.tid;
      match pc
      case Idle => pcs := pcs[t := Invoke(e.call)];
      case SLock =>
        if holder.None? {
          holder, pcs := Some(t), pcs[t := SPush];
        }
      case SNotify => pcs := WakeOne(pcs, e.pick)[t := Idle];
      case PauseStore(value) => paused, pcs := value, pcs[t := if value then Idle else ResumeNotify];
      case ResumeNotify => pcs := WakeAll(pcs)[t := Idle];
    }

    method StopAndJoin(t: Tid, pc: Pc)
      requires pc == At(View(), t) && (pc.StopExchange? || InStop(pc)) && !AfterJoin(pc)
      modifies this
      ensures View() == StopStep(old(View()), t) && |fates| == old(|fates|) && enqueued == old(enqueued)
    {
      if pc.StopExchange? || pc.StopNotify? {
        AnnounceStop(t, pc);
      } else {
        AwaitWorkers(t, pc);
      }
    }

    method AnnounceStop(t: Tid, pc: Pc)
      requires pc == At(View(), t) && (pc.StopExchange? || pc.StopNotify?)
      modifies this`stopping, this`pcs, this`stopper, this`pendingAtStop
      ensures View() == StopStep(old(View()), t)
    {
      match pc
      case StopExchange(wait) =>
        if stopping {
          pcs := pcs[t := Idle];
        } else {
          stopper, pendingAtStop := Some(t), pending;
          stopping, pcs := true, pcs[t := StopNotify(wait)];
        }
      case StopNotify(wait) => pcs := WakeAll(pcs)[t := if wait then StopPoll else StopJoin(0)];
    }

    method AwaitWorkers(t: Tid, pc: Pc)
      requires pc == At(View(), t) && (pc.StopPoll? || pc.StopJoin?)
      modifies this`pcs
      ensures View() == StopStep(old(View()), t)
    {
      match pc
      case StopPoll =>
        if pending == 0 {
          pcs := pcs[t := StopJoin(0)];
        }
      case StopJoin(k) =>
        if k >= workers {
          pcs := pcs[t := StopLock];
        } else {
          var worker := Current(k);
          if worker.WExit? {
            pcs := pcs[t := StopJoin(k + 1)];
          }
        }
    }

    method Drain(t: Tid, pc: Pc)
      requires pc == At(View(), t) && AfterJoin(pc)
      modifies this
      ensures View() == StopStep(old(View()), t) && |fates| == old(|fates|) && enqueued == old(enqueued)
    {
      if pc.StopDrain? {
        DiscardTask(t);
      } else {
        FinishStop(t, pc);
      }
    }

    method DiscardTask(t: Tid)
      requires At(View(), t).StopDrain?
      modifies this`queue, this`pcs, this`fates, this`drained
      ensures View() == StopStep(old(View()), t) && |fates| == old(|fates|)
    {
      drained := true;
      if queue == [] {
        pcs := pcs[t := StopUnlock];
      } else {
        fates := SetFate(fates, queue[0], Discarded);
        queue := queue[1..];
      }
    }

    method FinishStop(t: Tid, pc: Pc)
      requires pc == At(View(), t) && AfterJoin(pc) && !pc.StopDrain?
      modifies this`holder, this`pending, this`stopping, this`pcs
      ensures View() == StopStep(old(View()), t)
    {
      match pc
      case StopLock =>
        if holder.None? {
          holder, pcs := Some(t), pcs[t := StopDrain];
        }
      case StopUnlock => holder, pcs := None, pcs[t := StopZero];
      case StopZero => pending, pcs := 0, pcs[t := StopStore];
      case StopStore => stopping, pcs := true, pcs[t := Idle];
    }

    method Execute(es: seq<Event>)
      requires Valid()
      modifies this
      ensures View() == Run(old(View()), es) && Valid()
    {
      ghost var start := View();
      for k := 0 to |es|
        invariant View() == Run(start, es[..k]) && Valid()
      {
        Advance(es[k]);
        assert es[..k + 1][..k] == es[..k];
      }
      assert es[..|es|] == es;
    }
  }
}
