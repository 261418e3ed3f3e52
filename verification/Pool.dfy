/**
 The thread pool's queue, workers and shutdown as a transition system.  `m_stopping`, `m_paused` and
 `m_pendingTasks` are read and written with and without the queue lock, so every such access is a step of its
 own; lock acquisitions wait while another thread holds the lock.
 */
module Pool {
  import opened Words
  import opened Prelude

  /** A task, named by how many were enqueued before it. */
  type Ticket = nat

  datatype Pc =
      // a worker
    | WTop
    | WPauseTest
    | WLock
    | WEmptyLoop
    | WStopLoop
    | WAsleep
    | WRelock
    | WEmptyTest
    | WStopTest
    | WTake
    | WSub(task: Ticket)
    | WUnlock(got: Option<Ticket>)
    | WRun(task: Ticket)
    | WSet(task: Ticket)
    | WExit
      // a client between calls, in Submit, in Stop, in Pause or Resume
    | Idle
    | SLock
    | SPush
    | SAdd
    | SUnlock
    | SNotify
    | StopExchange(wait: bool)
    | StopNotify(wait: bool)
    | StopPoll
    | StopJoin(k: nat)
    | StopLock
    | StopDrain
    | StopUnlock
    | StopZero
    | StopStore
    | PauseStore(value: bool)
    | ResumeNotify

  /** What has become of a task; kept as history. */
  datatype Fate = Queued | Held(worker: Tid) | Ran(worker: Tid) | Executed | Discarded

  /**
   Threads below `workers` run `WorkerLoop`, all others are clients.  `ready` has the tasks whose promise has been
   set, with a value or an exception, after their function ran.  The fields from `fates` on are history:
   the fate of every task, the tasks in the order they were executed, who set the stop flag, the pending count
   it found, the additions and subtractions since, and whether the queue has been drained.
   */
  datatype State = State(
    workers: nat,
    holder: Option<Tid>,
    queue: seq<Ticket>,
    pending: nat,
    stopping: bool,
    paused: bool,
    pcs: map<Tid, Pc>,
    ready: set<Ticket>,
    fates: seq<Fate>,
    executed: seq<Ticket>,
    stopper: Option<Tid>,
    pendingAtStop: nat,
    addsSince: nat,
    subsSince: nat,
    drained: bool)

  datatype Call = CallSubmit | CallStop(wait: bool) | CallPause | CallResume

  /** `call` is used by an idle client, `pick` is the sleeper `NotifyOne` chooses, if that one sleeps. */
  datatype Event = Event(tid: Tid, call: Call, pick: Tid)

  function At(s: State, t: Tid): Pc {
    if t in s.pcs then s.pcs[t] else if t < s.workers then WTop else Idle
  }

  function Init(workers: nat): State {
    State(workers, None, [], 0, false, false, map[], {}, [], [], None, 0, 0, 0, false)
  }

  function Goto(s: State, t: Tid, pc: Pc): State {
    s.(pcs := s.pcs[t := pc])
  }

  function Acquire(s: State, t: Tid, pc: Pc): State {
    if s.holder.None? then Goto(s, t, pc).(holder := Some(t)) else s
  }

  function Release(s: State, t: Tid, pc: Pc): State {
    Goto(s, t, pc).(holder := None)
  }

  function WakeOne(pcs: map<Tid, Pc>, pick: Tid): map<Tid, Pc> {
    if pick in pcs && pcs[pick].WAsleep? then pcs[pick := WRelock] else pcs
  }

  function WakeAll(pcs: map<Tid, Pc>): map<Tid, Pc> {
    map t | t in pcs :: if pcs[t].WAsleep? then WRelock else pcs[t]
  }

  function SetFate(fates: seq<Fate>, k: Ticket, fate: Fate): seq<Fate> {
    if k < |fates| then fates[k := fate] else fates
  }

  /** `fetch_sub(1)` on an unsigned word. */
  function Decrement(p: nat): nat {
    if p == 0 then WORD - 1 else p - 1
  }

  function WorkerStep(s: State, t: Tid): State {
    match At(s, t)
    case WTop => Goto(s, t, if s.stopping then WExit else WPauseTest)
    case WPauseTest => Goto(s, t, if s.paused then WTop else WLock)
    case WLock => Acquire(s, t, WEmptyLoop)
    case WEmptyLoop => Goto(s, t, if s.queue == [] then WStopLoop else WEmptyTest)
    case WStopLoop => if s.stopping then Goto(s, t, WEmptyTest) else Release(s, t, WAsleep)
    case WAsleep => Goto(s, t, WRelock)
    case WRelock => Acquire(s, t, WEmptyLoop)
    case WEmptyTest => Goto(s, t, if s.queue == [] then WUnlock(None) else WStopTest)
    case WStopTest => Goto(s, t, if s.stopping then WUnlock(None) else WTake)
    case WTake =>
      if s.queue == [] then s
      else Goto(s, t, WSub(s.queue[0])).(queue := s.queue[1..], fates := SetFate(s.fates, s.queue[0], Held(t)))
    case WSub(k) =>
      Goto(s, t, WUnlock(Some(k))).(
        pending := Decrement(s.pending), subsSince := if s.stopping then s.subsSince + 1 else s.subsSince)
    case WUnlock(got) => Release(s, t, if got.Some? then WRun(got.value) else WTop)
    case WRun(k) => Goto(s, t, WSet(k)).(executed := s.executed + [k], fates := SetFate(s.fates, k, Ran(t)))
    case WSet(k) => Goto(s, t, WTop).(ready := s.ready + {k}, fates := SetFate(s.fates, k, Executed))
    case _ => s
  }

  function Invoke(call: Call): Pc {
    match call
    case CallSubmit => SLock
    case CallStop(wait) => StopExchange(wait)
    case CallPause => PauseStore(true)
    case CallResume => PauseStore(false)
  }

  function ClientStep(s: State, t: Tid, e: Event): State {
    match At(s, t)
    case Idle => Goto(s, t, Invoke(e.call))
    case SLock => Acquire(s, t, SPush)
    case SPush => Goto(s, t, SAdd).(queue := s.queue + [|s.fates|], fates := s.fates + [Queued])
    case SAdd =>
      Goto(s, t, SUnlock).(pending := s.pending + 1, addsSince := if s.stopping then s.addsSince + 1 else s.addsSince)
    case SUnlock => Release(s, t, SNotify)
    case SNotify => s.(pcs := WakeOne(s.pcs, e.pick)[t := Idle])
    case PauseStore(value) => Goto(s, t, if value then Idle else ResumeNotify).(paused := value)
    case ResumeNotify => s.(pcs := WakeAll(s.pcs)[t := Idle])
    case _ => StopStep(s, t)
  }

  function StopStep(s: State, t: Tid): State {
    match At(s, t)
    case StopExchange(wait) =>
      if s.stopping then Goto(s, t, Idle)
      else Goto(s, t, StopNotify(wait)).(stopping := true, stopper := Some(t), pendingAtStop := s.pending)
    case StopNotify(wait) => s.(pcs := WakeAll(s.pcs)[t := if wait then StopPoll else StopJoin(0)])
    case StopPoll => if s.pending > 0 then s else Goto(s, t, StopJoin(0))
    case StopJoin(k) =>
      if k >= s.workers then Goto(s, t, StopLock) else if At(s, k).WExit? then Goto(s, t, StopJoin(k + 1)) else s
    case StopLock => Acquire(s, t, StopDrain)
    case StopDrain =>
      if s.queue == [] then Goto(s, t, StopUnlock).(drained := true)
      else s.(queue := s.queue[1..], fates := SetFate(s.fates, s.queue[0], Discarded), drained := true)
    case StopUnlock => Release(s, t, StopZero)
    case StopZero => Goto(s, t, StopStore).(pending := 0)
    case StopStore => Goto(s, t, Idle).(stopping := true)
    case _ => s
  }

  function Step(s: State, e: Event): State {
    if e.tid < s.workers then WorkerStep(s, e.tid) else ClientStep(s, e.tid, e)
  }

  function Run(s: State, es: seq<Event>): State {
    if es == [] then s else Step(Run(s, es[..|es| - 1]), es[|es| - 1])
  }
}
