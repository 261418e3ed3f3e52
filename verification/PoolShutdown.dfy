/** How `Stop(true)` ends: when it can return at all, and what has then become of the tasks it waited for. */
module PoolShutdown {
  import opened Prelude
  import opened Pool
  import opened PoolProof
  import opened PoolTheorems

  // ---------- when the pending count can still reach zero ----------

  /** Nothing pending, or one task pending that a worker is about to take or has just taken without counting it off. */
  predicate CanStillReachZero(s: State) {
    s.pending == 0 || (s.pending == 1 && (HolderPc(s).WTake? || HolderPc(s).WSub?))
  }

  ghost predicate Stuck(s: State, t: Tid) {
    Inv(s) && At(s, t).StopPoll? && !CanStillReachZero(s)
  }

  lemma StuckWorker(s: State, w: Tid)
    requires Inv(s) && s.stopping && !s.drained && w < s.workers && !CanStillReachZero(s)
    ensures !CanStillReachZero(WorkerStep(s, w))
  {
    assert ThreadOk(s, w);
  }

  lemma StuckClient(s: State, e: Event)
    requires Inv(s) && s.stopping && !s.drained && e.tid >= s.workers && !CanStillReachZero(s)
    ensures !CanStillReachZero(ClientStep(s, e.tid, e))
  {
    ClientFrame(s, e.tid, e);
    assert ThreadOk(s, e.tid);
    if s.holder.Some? {
      assert ThreadOk(s, s.holder.value);
    }
  }

  lemma StuckStep(s: State, t: Tid, e: Event)
    requires Stuck(s, t)
    ensures Stuck(Step(s, e), t)
  {
    assert ThreadOk(s, t);
    StepInv(s, e);
    StepFrame(s, e);
    if e.tid < s.workers {
      StuckWorker(s, e.tid);
    } else {
      StuckClient(s, e);
    }
  }

  lemma {:induction false} StuckRun(s: State, t: Tid, es: seq<Event>)
    requires Stuck(s, t)
    ensures Stuck(Run(s, es), t)
    decreases |es|
  {
    if es == [] {
    } else {
      StuckRun(s, t, es[..|es| - 1]);
      StuckStep(Run(s, es[..|es| - 1]), t, es[|es| - 1]);
    }
  }

  // ---------- schedules that exist ----------

  lemma RunSnoc(s: State, es: seq<Event>, e: Event)
    ensures Run(s, es + [e]) == Step(Run(s, es), e)
  {
    assert (es + [e])[..|es|] == es;
  }

  lemma {:induction false} RunConcat(s: State, a: seq<Event>, b: seq<Event>)
    ensures Run(s, a + b) == Run(Run(s, a), b)
    decreases |b|
  {
    if b == [] {
      assert a + b == a;
    } else {
      RunConcat(s, a, b[..|b| - 1]);
      assert (a + b)[..|a + b| - 1] == a + b[..|b| - 1];
    }
  }

  /** Some schedule leads from one state to the other. */
  ghost predicate Leads(s: State, s': State) {
    exists es: seq<Event> :: Run(s, es) == s'
  }

  lemma LeadsNowhere(s: State)
    ensures Leads(s, s)
  {
    assert Run(s, []) == s;
  }

  lemma LeadsOn(s: State, s': State, e: Event)
    requires Leads(s, s')
    ensures Leads(s, Step(s', e))
  {
    var es: seq<Event> :| Run(s, es) == s';
    RunSnoc(s, es, e);
  }

  lemma LeadsTrans(a: State, b: State, c: State)
    requires Leads(a, b) && Leads(b, c)
    ensures Leads(a, c)
  {
    var es: seq<Event> :| Run(a, es) == b;
    var fs: seq<Event> :| Run(b, fs) == c;
    RunConcat(a, es, fs);
  }

  /** What a thread does next when the choices of the event do not matter. */
  function Next(t: Tid): Event {
    Event(t, CallPause, 0)
  }

  // ---------- leaving the wait ----------

  lemma TakeStep(s: State, t: Tid, w: Tid)
    requires Inv(s) && At(s, t).StopPoll? && s.holder == Some(w) && At(s, w).WTake?
    ensures var s' := Step(s, Next(w));
            Inv(s') && At(s', t).StopPoll? && s'.holder == Some(w) && At(s', w).WSub? && s'.pending == s.pending
  {
    assert ThreadOk(s, t) && ThreadOk(s, w);
    StepInv(s, Next(w));
  }

  lemma SubStep(s: State, t: Tid, w: Tid)
    requires Inv(s) && At(s, t).StopPoll? && At(s, w).WSub? && s.pending == 1
    ensures var s' := Step(s, Next(w)); Inv(s') && At(s', t).StopPoll? && s'.pending == 0
  {
    assert ThreadOk(s, t) && ThreadOk(s, w);
    StepInv(s, Next(w));
  }

  /** The worker in the lock, if there must be one, counts its task off. */
  lemma ReachZero(s: State, t: Tid) returns (s': State)
    requires Inv(s) && At(s, t).StopPoll? && CanStillReachZero(s)
    ensures Leads(s, s') && Inv(s') && At(s', t).StopPoll? && s'.pending == 0
  {
    s' := s;
    LeadsNowhere(s);
    if s.pending == 1 {
      var w := s.holder.value;
      if At(s, w).WTake? {
        TakeStep(s, t, w);
        LeadsOn(s, s', Next(w));
        s' := Step(s', Next(w));
      }
      SubStep(s', t, w);
      LeadsOn(s, s', Next(w));
      s' := Step(s', Next(w));
    }
  }

  lemma LeavePoll(s: State, t: Tid)
    requires Inv(s) && At(s, t).StopPoll? && s.pending == 0
    ensures Joining(Step(s, Next(t)), t, 0)
  {
    assert ThreadOk(s, t);
    StepInv(s, Next(t));
  }

  // ---------- joining the workers ----------

  ghost predicate Joining(s: State, t: Tid, k: nat) {
    Inv(s) && At(s, t) == StopJoin(k)
  }

  /** How far the thread in the lock is from giving it back, once the stop flag is set. */
  function LockRank(pc: Pc): nat {
    match pc
    case WEmptyLoop => 6
    case WStopLoop => 5
    case WEmptyTest => 4
    case WStopTest => 3
    case WTake => 3
    case WSub(_) => 2
    case SPush => 3
    case SAdd => 2
    case _ => 1
  }

  lemma HolderMoves(s: State, t: Tid, k: nat)
    requires Joining(s, t, k) && s.holder.Some?
    ensures var s' := Step(s, Next(s.holder.value));
            && Joining(s', t, k)
            && (s'.holder == None || (s'.holder == s.holder && LockRank(HolderPc(s')) < LockRank(HolderPc(s))))
  {
    var h := s.holder.value;
    assert ThreadOk(s, t) && ThreadOk(s, h);
    StepInv(s, Next(h));
    StepFrame(s, Next(h));
    if h < s.workers {
      WorkerInLock(s, h);
    } else {
      SubmitterInLock(s, h);
    }
  }

  lemma WorkerInLock(s: State, h: Tid)
    requires Inv(s) && s.stopping && h < s.workers && s.holder == Some(h)
    ensures var s' := WorkerStep(s, h);
            s'.holder == None || (s'.holder == s.holder && LockRank(At(s', h)) < LockRank(At(s, h)))
  {
    assert ThreadOk(s, h);
  }

  lemma SubmitterInLock(s: State, h: Tid)
    requires Inv(s) && h >= s.workers && s.holder == Some(h) && !InStop(At(s, h))
    ensures var s' := ClientStep(s, h, Next(h));
            s'.holder == None || (s'.holder == s.holder && LockRank(At(s', h)) < LockRank(At(s, h)))
  {
    assert ThreadOk(s, h);
  }

  /** Whoever holds the lock can be brought to give it back. */
  lemma FreeTheLock(s: State, t: Tid, k: nat) returns (s': State)
    requires Joining(s, t, k)
    ensures Leads(s, s') && Joining(s', t, k) && s'.holder == None
  {
    s' := s;
    LeadsNowhere(s);
    while s'.holder != None
      invariant Leads(s, s') && Joining(s', t, k)
      decreases if s'.holder == None then 0 else LockRank(HolderPc(s'))
    {
      var e := Next(s'.holder.value);
      HolderMoves(s', t, k);
      LeadsOn(s, s', e);
      s' := Step(s', e);
    }
  }

  /** How far a worker is from its exit, once the stop flag is set and nobody else holds the lock. */
  function ExitRank(pc: Pc): nat {
    match pc
    case WPauseTest | WAsleep => 10
    case WLock | WRelock => 9
    case WEmptyLoop => 8
    case WStopLoop => 7
    case WEmptyTest => 6
    case WTake => 6
    case WStopTest => 5
    case WSub(_) => 5
    case WUnlock(_) => 4
    case WRun(_) => 3
    case WSet(_) => 2
    case WTop => 1
    case _ => 0
  }

  lemma WorkerNearsUnlock(s: State, w: Tid)
    requires Inv(s) && s.stopping && w < s.workers && s.holder == Some(w) && InLock(At(s, w))
    ensures var s' := WorkerStep(s, w);
            && ExitRank(At(s', w)) < ExitRank(At(s, w)) && (s'.holder == None || s'.holder == Some(w))
            && s'.workers == s.workers
  {
    assert ThreadOk(s, w);
  }

  lemma WorkerNearsExit(s: State, w: Tid)
    requires Inv(s) && s.stopping && w < s.workers && (s.holder == None || s.holder == Some(w)) && !At(s, w).WExit?
    ensures var s' := WorkerStep(s, w);
            && ExitRank(At(s', w)) < ExitRank(At(s, w)) && (s'.holder == None || s'.holder == Some(w))
            && s'.workers == s.workers
  {
    assert ThreadOk(s, w);
    if InLock(At(s, w)) {
      WorkerNearsUnlock(s, w);
    }
  }

  lemma WorkerStepJoining(s: State, t: Tid, k: nat, w: Tid)
    requires Joining(s, t, k) && w < s.workers
    ensures Joining(Step(s, Next(w)), t, k) && Step(s, Next(w)) == WorkerStep(s, w) && s.stopping
  {
    assert ThreadOk(s, t);
    StepInv(s, Next(w));
    StepFrame(s, Next(w));
  }

  /** With the lock free any worker can be brought to its exit, leaving the lock free. */
  lemma DriveWorker(s: State, t: Tid, k: nat, w: Tid) returns (s': State)
    requires Joining(s, t, k) && w < s.workers && s.holder == None
    ensures Leads(s, s') && Joining(s', t, k) && s'.holder == None && At(s', w).WExit? && s'.workers == s.workers
  {
    s' := s;
    LeadsNowhere(s);
    while !At(s', w).WExit?
      invariant Leads(s, s') && Joining(s', t, k) && s'.workers == s.workers
      invariant s'.holder == None || s'.holder == Some(w)
      decreases ExitRank(At(s', w))
    {
      WorkerStepJoining(s', t, k, w);
      WorkerNearsExit(s', w);
      LeadsOn(s, s', Next(w));
      s' := WorkerStep(s', w);
    }
    assert ThreadOk(s', w);
  }

  lemma JoinStep(s: State, t: Tid, k: nat)
    requires Joining(s, t, k) && (k >= s.workers || At(s, k).WExit?)
    ensures var s' := Step(s, Next(t));
            && Inv(s') && s'.holder == s.holder && s'.workers == s.workers
            && At(s', t) == (if k >= s.workers then StopLock else StopJoin(k + 1))
  {
    assert ThreadOk(s, t);
    StepInv(s, Next(t));
  }

  /** One worker after the other is driven to its exit and joined. */
  lemma JoinAll(s: State, t: Tid) returns (s': State)
    requires Joining(s, t, 0) && s.holder == None
    ensures Leads(s, s') && Inv(s') && At(s', t).StopLock? && s'.holder == None
  {
    s' := s;
    LeadsNowhere(s);
    for k := 0 to s.workers
      invariant Leads(s, s') && Joining(s', t, k) && s'.holder == None && s'.workers == s.workers
    {
      var s1 := DriveWorker(s', t, k, k);
      LeadsTrans(s, s', s1);
      JoinStep(s1, t, k);
      LeadsOn(s, s1, Next(t));
      s' := Step(s1, Next(t));
    }
    JoinStep(s', t, s.workers);
    LeadsOn(s, s', Next(t));
    s' := Step(s', Next(t));
  }

  // ---------- draining ----------

  function EndRank(s: State, t: Tid): nat {
    match At(s, t)
    case StopLock => |s.queue| + 5
    case StopDrain => |s.queue| + 4
    case StopUnlock => 3
    case StopZero => 2
    case StopStore => 1
    case _ => 0
  }

  lemma EndNears(s: State, t: Tid)
    requires Inv(s) && AfterJoin(At(s, t)) && (s.holder == None || s.holder == Some(t))
    ensures var s' := Step(s, Next(t));
            && Inv(s') && EndRank(s', t) < EndRank(s, t) && (AfterJoin(At(s', t)) || At(s', t).Idle?)
            && (s'.holder == None || s'.holder == Some(t))
  {
    assert ThreadOk(s, t);
    StepInv(s, Next(t));
    assert Step(s, Next(t)) == StopStep(s, t);
  }

  /** Past the joins nothing but the stopper's own steps is needed. */
  lemma FinishStop(s: State, t: Tid) returns (s': State)
    requires Inv(s) && At(s, t).StopLock? && s.holder == None
    ensures Leads(s, s') && At(s', t).Idle?
  {
    s' := s;
    LeadsNowhere(s);
    while !At(s', t).Idle?
      invariant Leads(s, s') && Inv(s') && (AfterJoin(At(s', t)) || At(s', t).Idle?)
      invariant s'.holder == None || s'.holder == Some(t)
      decreases EndRank(s', t)
    {
      EndNears(s', t);
      LeadsOn(s, s', Next(t));
      s' := Step(s', Next(t));
    }
  }

  /** The whole way from the wait to the return. */
  lemma StopCanReturn(s: State, t: Tid) returns (s': State)
    requires Inv(s) && At(s, t).StopPoll? && CanStillReachZero(s)
    ensures Leads(s, s') && At(s', t).Idle?
  {
    var zero := ReachZero(s, t);
    LeavePoll(zero, t);
    LeadsOn(s, zero, Next(t));
    var joining := Step(zero, Next(t));
    var free := FreeTheLock(joining, t, 0);
    LeadsTrans(s, joining, free);
    var joined := JoinAll(free, t);
    LeadsTrans(s, free, joined);
    s' := FinishStop(joined, t);
    LeadsTrans(s, joined, s');
  }

  /**
   From any reachable state in which `Stop(true)` waits, some schedule lets it return if and only if nothing is
   pending or the last pending task is in the hands of a worker that passed its stop test before the flag was set.
   */
  lemma StopCanReturnIff(s: State, t: Tid)
    requires Reached(s) && At(s, t).StopPoll?
    ensures (exists es: seq<Event> :: At(Run(s, es), t).Idle?) <==> CanStillReachZero(s)
  {
    ReachedInv(s);
    if CanStillReachZero(s) {
      var s' := StopCanReturn(s, t);
      var es: seq<Event> :| Run(s, es) == s';
      assert At(Run(s, es), t).Idle?;
    } else {
      forall es: seq<Event> ensures !At(Run(s, es), t).Idle? {
        StuckRun(s, t, es);
      }
    }
  }

  // ---------- a schedule in which it never returns ----------

  function Submitting(n: nat, inLock: bool, queue: seq<Ticket>, pending: nat, pc: Pc, fates: seq<Fate>): State {
    State(n, if inLock then Some(n) else None, queue, pending, false, false, map[n := pc],
          {}, fates, [], None, 0, 0, 0, false)
  }

  /** A client submits two tasks and calls `Stop(true)` before any of the `n` workers moves. */
  function StopTrace(n: nat, i: nat): State
    requires i <= 15
  {
    var one, two := [Queued], [Queued, Queued];
    var end := Submitting(n, false, [0, 1], 2, StopExchange(true), two);
    if i == 0 then Init(n)
    else if i == 1 then Submitting(n, false, [], 0, SLock, [])
    else if i == 2 then Submitting(n, true, [], 0, SPush, [])
    else if i == 3 then Submitting(n, true, [0], 0, SAdd, one)
    else if i == 4 then Submitting(n, true, [0], 1, SUnlock, one)
    else if i == 5 then Submitting(n, false, [0], 1, SNotify, one)
    else if i == 6 then Submitting(n, false, [0], 1, Idle, one)
    else if i == 7 then Submitting(n, false, [0], 1, SLock, one)
    else if i == 8 then Submitting(n, true, [0], 1, SPush, one)
    else if i == 9 then Submitting(n, true, [0, 1], 1, SAdd, two)
    else if i == 10 then Submitting(n, true, [0, 1], 2, SUnlock, two)
    else if i == 11 then Submitting(n, false, [0, 1], 2, SNotify, two)
    else if i == 12 then Submitting(n, false, [0, 1], 2, Idle, two)
    else if i == 13 then end
    else
      end.(pcs := map[n := if i == 14 then StopNotify(true) else StopPoll],
           stopping := true, stopper := Some(n), pendingAtStop := 2)
  }

  function StopEvent(n: nat, i: nat): Event {
    Event(n, if i < 12 then CallSubmit else CallStop(true), n)
  }

  lemma FirstSubmitSteps(n: nat, i: nat)
    requires i < 6
    ensures Step(StopTrace(n, i), StopEvent(n, i)) == StopTrace(n, i + 1)
  {
    if i == 0 {
    } else if i == 1 {
    } else if i == 2 {
    } else if i == 3 {
    } else if i == 4 {
    } else {
    }
  }

  lemma SecondSubmitSteps(n: nat, i: nat)
    requires 6 <= i < 12
    ensures Step(StopTrace(n, i), StopEvent(n, i)) == StopTrace(n, i + 1)
  {
    if i == 6 {
    } else if i == 7 {
    } else if i == 8 {
    } else if i == 9 {
    } else if i == 10 {
    } else {
    }
  }

  lemma StopTraceSteps(n: nat, i: nat)
    requires i < 15
    ensures Step(StopTrace(n, i), StopEvent(n, i)) == StopTrace(n, i + 1)
  {
    if i < 6 {
      FirstSubmitSteps(n, i);
    } else if i < 12 {
      SecondSubmitSteps(n, i);
    } else if i == 12 {
    } else if i == 13 {
    } else {
    }
  }

  /** Two tasks pending at the flag are enough: `Stop(true)` waits, and by `StopWithTwoPendingNeverReturns` forever. */
  lemma StopCanHang(workers: nat) returns (es: seq<Event>)
    ensures var s := Run(Init(workers), es);
            Reached(s) && At(s, workers).StopPoll? && s.pendingAtStop == 2 && !CanStillReachZero(s)
  {
    es := [];
    for i := 0 to 15
      invariant Run(Init(workers), es) == StopTrace(workers, i)
    {
      RunSnoc(Init(workers), es, StopEvent(workers, i));
      StopTraceSteps(workers, i);
      es := es + [StopEvent(workers, i)];
    }
  }

  // ---------- what it waited for ----------

  /** The tasks that have been added to the pending count; the one being enqueued may not have been yet. */
  function Counted(s: State): int {
    |s.fates| - if HolderPc(s).SAdd? then 1 else 0
  }

  /** Some worker took the task: it holds it, has run it, or has set its future as well. */
  predicate WasTaken(s: State, k: Ticket) {
    k < |s.fates| && (s.fates[k].Held? || s.fates[k].Ran? || s.fates[k].Executed?)
  }

  ghost predicate AllTaken(s: State, n: int) {
    forall k: Ticket | k < n :: WasTaken(s, k)
  }

  lemma WorkerInsideKeepsCounted(s: State, w: Tid)
    requires Inv(s) && w < s.workers && InLock(At(s, w))
    ensures Counted(WorkerStep(s, w)) == Counted(s)
  {
    assert ThreadOk(s, w);
  }

  lemma WorkerKeepsCounted(s: State, w: Tid)
    requires Inv(s) && w < s.workers
    ensures Counted(WorkerStep(s, w)) == Counted(s)
  {
    assert ThreadOk(s, w);
    if InLock(At(s, w)) {
      WorkerInsideKeepsCounted(s, w);
    } else if s.holder.Some? {
      assert ThreadOk(s, s.holder.value);
    }
  }

  lemma SubmitCounted(s: State, e: Event)
    requires Inv(s) && e.tid >= s.workers && InLock(At(s, e.tid)) && !InStop(At(s, e.tid))
    ensures Counted(s) <= Counted(ClientStep(s, e.tid, e))
  {
    assert ThreadOk(s, e.tid);
  }

  lemma StopKeepsCounted(s: State, t: Tid)
    requires Inv(s) && t >= s.workers && (InStop(At(s, t)) || At(s, t).StopExchange?)
    ensures Counted(StopStep(s, t)) == Counted(s)
  {
    assert ThreadOk(s, t);
    if s.holder.Some? {
      assert ThreadOk(s, s.holder.value);
    }
  }

  lemma CallKeepsCounted(s: State, e: Event)
    requires Inv(s) && e.tid >= s.workers && !InLock(At(s, e.tid))
    requires !InStop(At(s, e.tid)) && !At(s, e.tid).StopExchange?
    ensures Counted(ClientStep(s, e.tid, e)) == Counted(s)
  {
    assert ThreadOk(s, e.tid);
    ClientFrame(s, e.tid, e);
  }

  lemma CountedGrows(s: State, e: Event)
    requires Inv(s)
    ensures Counted(s) <= Counted(Step(s, e))
  {
    var pc := At(s, e.tid);
    if e.tid < s.workers {
      WorkerKeepsCounted(s, e.tid);
    } else if InStop(pc) || pc.StopExchange? {
      StopKeepsCounted(s, e.tid);
      assert ClientStep(s, e.tid, e) == StopStep(s, e.tid);
    } else if InLock(pc) {
      SubmitCounted(s, e);
    } else {
      CallKeepsCounted(s, e);
    }
  }

  /** When the pending count is zero before the drain, every task that was counted has been taken. */
  lemma ZeroMeansTaken(s: State)
    requires Inv(s) && !s.drained && s.pending == 0
    ensures AllTaken(s, Counted(s))
  {
    if s.holder.Some? {
      assert ThreadOk(s, s.holder.value);
    }
    forall k: Ticket | k < Counted(s) ensures WasTaken(s, k) {
      assert FateOk(s, k);
    }
  }

  lemma TakenStays(s: State, n: int, e: Event)
    requires Reached(s) && AllTaken(s, n)
    ensures AllTaken(Step(s, e), n)
  {
    FatesAreFinal(s, e);
    forall k: Ticket | k < n ensures WasTaken(Step(s, e), k) {
      assert WasTaken(s, k) && FateMayBecome(s.fates[k], Step(s, e).fates[k]);
    }
  }

  /** `Stop(true)` after it set the flag, up to the end of its wait. */
  predicate Waits(pc: Pc) {
    pc == StopNotify(true) || pc.StopPoll?
  }

  lemma WaitStep(s: State, t: Tid, n: int, e: Event)
    requires Reached(s) && Waits(At(s, t)) && n <= Counted(s)
    ensures Waits(At(Step(s, e), t)) || AllTaken(Step(s, e), n)
  {
    ReachedInv(s);
    assert ThreadOk(s, t);
    StepFrame(s, e);
    if e.tid == t && At(s, t).StopPoll? && s.pending == 0 {
      ZeroMeansTaken(s);
      assert AllTaken(s, n);
      TakenStays(s, n, e);
    }
  }

  /**
   `Stop(true)` discards nothing it counted: in any schedule after it set the flag, either it still waits or every
   task that was counted at that moment has been taken by a worker.
   */
  lemma {:induction false} StopDiscardsNothingCounted(s: State, t: Tid, es: seq<Event>)
    requires Reached(s) && Waits(At(s, t))
    ensures Waits(At(Run(s, es), t)) || AllTaken(Run(s, es), Counted(s))
    ensures Reached(Run(s, es)) && Counted(s) <= Counted(Run(s, es))
    decreases |es|
  {
    if es == [] {
    } else {
      var before, e := Run(s, es[..|es| - 1]), es[|es| - 1];
      StopDiscardsNothingCounted(s, t, es[..|es| - 1]);
      ReachedInv(before);
      ReachedStep(before, e);
      CountedGrows(before, e);
      if Waits(At(before, t)) {
        WaitStep(before, t, Counted(s), e);
      } else {
        TakenStays(before, Counted(s), e);
      }
    }
  }
}
