/** No task is lost or run twice, the pending count is honest, and how `Stop(true)` can end. */
module PoolProof {
  import opened Words
  import opened Prelude
  import opened Pool

  // ---------- the invariant ----------

  predicate IsWorkerPc(pc: Pc) {
    pc.WTop? || pc.WPauseTest? || pc.WLock? || pc.WEmptyLoop? || pc.WStopLoop? || pc.WAsleep? || pc.WRelock? ||
    pc.WEmptyTest? || pc.WStopTest? || pc.WTake? || pc.WSub? || pc.WUnlock? || pc.WRun? || pc.WSet? ||
    pc.WExit?
  }

  /** The points at which a thread holds the queue lock. */
  predicate InLock(pc: Pc) {
    pc.WEmptyLoop? || pc.WStopLoop? || pc.WEmptyTest? || pc.WStopTest? || pc.WTake? || pc.WSub? || pc.WUnlock? ||
    pc.SPush? || pc.SAdd? || pc.SUnlock? || pc.StopDrain? || pc.StopUnlock?
  }

  /** The points of `Stop` after winning the exchange. */
  predicate InStop(pc: Pc) {
    pc.StopNotify? || pc.StopPoll? || pc.StopJoin? || AfterJoin(pc)
  }

  predicate AfterJoin(pc: Pc) {
    pc.StopLock? || pc.StopDrain? || pc.StopUnlock? || pc.StopZero? || pc.StopStore?
  }

  /** The task a worker is carrying. */
  function Carried(pc: Pc): Option<Ticket> {
    match pc
    case WSub(k) => Some(k)
    case WUnlock(got) => got
    case WRun(k) => Some(k)
    case _ => None
  }

  /** The task whose promise a worker is about to set. */
  function Settling(pc: Pc): Option<Ticket> {
    match pc
    case WSet(k) => Some(k)
    case _ => None
  }

  ghost predicate ThreadOk(s: State, t: Tid) {
    var pc := At(s, t);
    && (IsWorkerPc(pc) <==> t < s.workers)
    && (s.holder == Some(t) <==> InLock(pc))
    && (pc.WStopTest? || pc.WTake? ==> s.queue != [])
    && (pc.WEmptyTest? ==> s.queue != [] || s.stopping)
    && (pc.WExit? ==> s.stopping)
    && (Carried(pc).Some? ==> Carried(pc).value < |s.fates| && s.fates[Carried(pc).value] == Held(t))
    && (Settling(pc).Some? ==> Settling(pc).value < |s.fates| && s.fates[Settling(pc).value] == Ran(t))
    && (InStop(pc) ==> s.stopper == Some(t))
    && (pc.StopNotify? || pc.StopPoll? || pc.StopJoin? || pc.StopLock? ==> !s.drained)
    && (pc.StopUnlock? || pc.StopZero? || pc.StopStore? ==> s.drained)
    && (AfterJoin(pc) ==> AllExited(s, s.workers))
    && (pc.StopJoin? ==> AllExited(s, pc.k))
  }

  ghost predicate AllExited(s: State, n: nat) {
    forall w | 0 <= w < n && w < s.workers :: At(s, w).WExit?
  }

  /** The queue holds the most recent tickets, oldest first. */
  ghost predicate QueueOk(s: State) {
    && |s.queue| <= |s.fates|
    && forall i | 0 <= i < |s.queue| :: s.queue[i] == |s.fates| - |s.queue| + i
  }

  ghost predicate FateOk(s: State, k: Ticket)
    requires k < |s.fates|
  {
    && (s.fates[k].Queued? <==> k >= |s.fates| - |s.queue|)
    && (s.fates[k].Held? ==> Carried(At(s, s.fates[k].worker)) == Some(k))
    && (s.fates[k].Ran? ==> Settling(At(s, s.fates[k].worker)) == Some(k))
    && (s.fates[k].Ran? || s.fates[k].Executed? <==> k in s.executed)
    && (s.fates[k].Executed? <==> k in s.ready)
    && (s.fates[k].Discarded? ==> s.drained)
  }

  /** The pc of the thread in the lock, if any. */
  function HolderPc(s: State): Pc {
    if s.holder.Some? then At(s, s.holder.value) else Idle
  }

  /** How far the pending count is off the queue length inside the lock. */
  function Skew(pc: Pc): int {
    if pc.SAdd? then -1 else if pc.WSub? then 1 else 0
  }

  ghost predicate CountsOk(s: State) {
    && (!s.drained ==> s.pending == |s.queue| + Skew(HolderPc(s)))
    && (s.drained ==> s.stopping && AllExited(s, s.workers))
    && (s.stopping <==> s.stopper.Some?)
    && (!s.stopping ==> s.subsSince == 0 && s.addsSince == 0)
    && (s.stopping && !s.drained ==> s.pendingAtStop + s.addsSince == s.pending + s.subsSince)
    && s.subsSince + (if s.stopping && (HolderPc(s).WTake? || HolderPc(s).WSub?) then 1 else 0) <= 1
  }

  ghost predicate Distinct(xs: seq<Ticket>) {
    forall i, j | 0 <= i < j < |xs| :: xs[i] != xs[j]
  }

  ghost predicate Inv(s: State) {
    && QueueOk(s)
    && (forall k | 0 <= k < |s.fates| :: FateOk(s, k))
    && (forall t :: ThreadOk(s, t))
    && CountsOk(s)
    && Distinct(s.executed) && (forall k | k in s.executed :: k < |s.fates|)
    && (forall k | k in s.ready :: k < |s.fates|)
  }

  // ---------- steps that leave queue, counts and fates alone ----------

  /** Everything but the program counters and the lock is as before, and only `t` and woken sleepers moved. */
  ghost predicate Moves(s: State, s': State, t: Tid) {
    && s' == s.(pcs := s'.pcs, holder := s'.holder, paused := s'.paused)
    && forall u | u != t :: At(s', u) == At(s, u) || (At(s, u).WAsleep? && At(s', u).WRelock?)
  }

  /** What `MoveInv` asks of the stepping thread. */
  ghost predicate PlainMove(s: State, s': State, t: Tid) {
    && Moves(s, s', t) && ThreadOk(s', t)
    && (s'.holder == s.holder || (s.holder == None && s'.holder == Some(t)) ||
        (s.holder == Some(t) && s'.holder == None))
    && !At(s, t).WSub? && !At(s, t).SAdd? && !At(s', t).WSub? && !At(s', t).SAdd? && !At(s, t).WTake?
    && (At(s, t).WExit? ==> At(s', t).WExit?)
    && (At(s', t).WTake? ==> !s.stopping)
    && Carried(At(s', t)) == Carried(At(s, t)) && Settling(At(s', t)) == Settling(At(s, t))
  }

  lemma MoveThreads(s: State, s': State, t: Tid, u: Tid)
    requires Inv(s) && PlainMove(s, s', t)
    ensures ThreadOk(s', u)
  {
    assert ThreadOk(s, t) && ThreadOk(s, u);
  }

  lemma MoveFates(s: State, s': State, t: Tid, k: Ticket)
    requires Inv(s) && PlainMove(s, s', t) && k < |s.fates|
    ensures FateOk(s', k)
  {
    assert FateOk(s, k);
  }

  lemma MoveCounts(s: State, s': State, t: Tid)
    requires Inv(s) && PlainMove(s, s', t)
    ensures CountsOk(s')
  {
    assert ThreadOk(s, t);
    if s.holder.Some? {
      assert ThreadOk(s, s.holder.value);
    }
  }

  lemma MoveInv(s: State, s': State, t: Tid)
    requires Inv(s) && PlainMove(s, s', t)
    ensures Inv(s')
  {
    forall u ensures ThreadOk(s', u) {
      MoveThreads(s, s', t, u);
    }
    forall k | 0 <= k < |s.fates| ensures FateOk(s', k) {
      MoveFates(s, s', t, k);
    }
    MoveCounts(s, s', t);
  }

  /** A worker moves on; it takes or gives back the lock exactly when its new point says so. */
  function WorkerGoto(s: State, t: Tid, pc: Pc): State {
    Goto(s, t, pc).(holder := if InLock(pc) then Some(t) else if InLock(At(s, t)) then None else s.holder)
  }

  predicate WorkerMayGoto(s: State, t: Tid, pc: Pc) {
    && t < s.workers && IsWorkerPc(pc)
    && !At(s, t).WTake? && !At(s, t).WSub? && !At(s, t).WExit? && !pc.WSub?
    && (InLock(pc) && !InLock(At(s, t)) ==> s.holder == None)
    && (pc.WStopTest? || pc.WTake? ==> s.queue != [])
    && (pc.WEmptyTest? ==> s.queue != [] || s.stopping)
    && (pc.WExit? ==> s.stopping)
    && (pc.WTake? ==> !s.stopping)
    && Carried(pc) == Carried(At(s, t)) && Settling(pc) == Settling(At(s, t))
  }

  lemma WorkerGotoThread(s: State, t: Tid, pc: Pc)
    requires ThreadOk(s, t) && WorkerMayGoto(s, t, pc)
    ensures ThreadOk(WorkerGoto(s, t, pc), t)
  {
  }

  lemma WorkerGotoInv(s: State, t: Tid, pc: Pc)
    requires Inv(s) && WorkerMayGoto(s, t, pc)
    ensures Inv(WorkerGoto(s, t, pc))
  {
    assert ThreadOk(s, t);
    WorkerGotoThread(s, t, pc);
    MoveInv(s, WorkerGoto(s, t, pc), t);
  }

  lemma WorkerLockInv(s: State, t: Tid)
    requires Inv(s) && t < s.workers && (At(s, t).WLock? || At(s, t).WRelock?)
    ensures Inv(WorkerStep(s, t))
  {
    assert ThreadOk(s, t);
    if s.holder.None? {
      WorkerGotoInv(s, t, WEmptyLoop);
    }
  }

  lemma WorkerOutsideInv(s: State, t: Tid)
    requires Inv(s) && t < s.workers && !InLock(At(s, t)) && !At(s, t).WRun? && !At(s, t).WSet?
    ensures Inv(WorkerStep(s, t))
  {
    assert ThreadOk(s, t);
    match At(s, t)
    case WTop => WorkerGotoInv(s, t, if s.stopping then WExit else WPauseTest);
    case WPauseTest => WorkerGotoInv(s, t, if s.paused then WTop else WLock);
    case WAsleep => WorkerGotoInv(s, t, WRelock);
    case WExit =>
    case _ => WorkerLockInv(s, t);
  }

  lemma WorkerWaitInv(s: State, t: Tid)
    requires Inv(s) && t < s.workers && (At(s, t).WEmptyLoop? || At(s, t).WStopLoop?)
    ensures Inv(WorkerStep(s, t))
  {
    assert ThreadOk(s, t);
    match At(s, t)
    case WEmptyLoop => WorkerGotoInv(s, t, if s.queue == [] then WStopLoop else WEmptyTest);
    case WStopLoop => WorkerGotoInv(s, t, if s.stopping then WEmptyTest else WAsleep);
  }

  lemma WorkerInsideInv(s: State, t: Tid)
    requires Inv(s) && t < s.workers && InLock(At(s, t)) && !At(s, t).WTake? && !At(s, t).WSub?
    ensures Inv(WorkerStep(s, t))
  {
    assert ThreadOk(s, t);
    match At(s, t)
    case WEmptyTest => WorkerGotoInv(s, t, if s.queue == [] then WUnlock(None) else WStopTest);
    case WStopTest => WorkerGotoInv(s, t, if s.stopping then WUnlock(None) else WTake);
    case WUnlock(got) => WorkerGotoInv(s, t, if got.Some? then WRun(got.value) else WTop);
    case _ => WorkerWaitInv(s, t);
  }

  lemma WorkerTakeInv(s: State, t: Tid)
    requires Inv(s) && t < s.workers && At(s, t).WTake?
    ensures Inv(WorkerStep(s, t))
  {
    assert ThreadOk(s, t);
    var s', k := WorkerStep(s, t), s.queue[0];
    assert FateOk(s, k);
    assert forall u | u != t :: At(s', u) == At(s, u);
    forall u ensures ThreadOk(s', u) {
      assert ThreadOk(s, u);
    }
    forall j | 0 <= j < |s'.fates| ensures FateOk(s', j) {
      assert FateOk(s, j);
    }
  }

  lemma WorkerSubInv(s: State, t: Tid)
    requires Inv(s) && t < s.workers && At(s, t).WSub?
    ensures Inv(WorkerStep(s, t))
    ensures s.pending > 0
  {
    var s' := WorkerStep(s, t);
    assert ThreadOk(s, t);
    assert forall u | u != t :: At(s', u) == At(s, u);
    forall u ensures ThreadOk(s', u) {
      assert ThreadOk(s, u);
    }
    forall j | 0 <= j < |s'.fates| ensures FateOk(s', j) {
      assert FateOk(s, j);
    }
  }

  lemma RunKeepsOthers(s: State, t: Tid, u: Tid)
    requires Inv(s) && t < s.workers && (At(s, t).WRun? || At(s, t).WSet?) && u != t
    ensures ThreadOk(WorkerStep(s, t), u)
  {
    assert ThreadOk(s, t) && ThreadOk(s, u);
    assert forall w | w != t :: At(WorkerStep(s, t), w) == At(s, w);
  }

  lemma RunKeepsSelf(s: State, t: Tid)
    requires Inv(s) && t < s.workers && (At(s, t).WRun? || At(s, t).WSet?)
    ensures ThreadOk(WorkerStep(s, t), t)
  {
    assert ThreadOk(s, t);
  }

  lemma RunKeepsFates(s: State, t: Tid, k: Ticket)
    requires Inv(s) && t < s.workers && (At(s, t).WRun? || At(s, t).WSet?) && k < |s.fates|
    ensures FateOk(WorkerStep(s, t), k)
  {
    assert ThreadOk(s, t) && FateOk(s, k);
    assert forall w | w != t :: At(WorkerStep(s, t), w) == At(s, w);
  }

  lemma RunKeepsCounts(s: State, t: Tid)
    requires Inv(s) && t < s.workers && (At(s, t).WRun? || At(s, t).WSet?)
    ensures CountsOk(WorkerStep(s, t))
  {
    assert ThreadOk(s, t);
    assert HolderPc(WorkerStep(s, t)) == HolderPc(s);
  }

  lemma WorkerRunInv(s: State, t: Tid)
    requires Inv(s) && t < s.workers && (At(s, t).WRun? || At(s, t).WSet?)
    ensures Inv(WorkerStep(s, t))
  {
    var s', k := WorkerStep(s, t), At(s, t).task;
    assert ThreadOk(s, t) && FateOk(s, k);
    forall u ensures ThreadOk(s', u) {
      if u == t {
        RunKeepsSelf(s, t);
      } else {
        RunKeepsOthers(s, t, u);
      }
    }
    forall j | 0 <= j < |s'.fates| ensures FateOk(s', j) {
      RunKeepsFates(s, t, j);
    }
    RunKeepsCounts(s, t);
  }

  lemma WorkerStepInv(s: State, t: Tid)
    requires Inv(s) && t < s.workers
    ensures Inv(WorkerStep(s, t))
  {
    var pc := At(s, t);
    if pc.WTake? {
      WorkerTakeInv(s, t);
    } else if pc.WSub? {
      WorkerSubInv(s, t);
    } else if pc.WRun? || pc.WSet? {
      WorkerRunInv(s, t);
    } else if InLock(pc) {
      WorkerInsideInv(s, t);
    } else {
      WorkerOutsideInv(s, t);
    }
  }

  // ---------- clients ----------

  lemma WakeMoves(s: State, t: Tid, pc: Pc, pick: Tid)
    ensures Moves(s, s.(pcs := WakeOne(s.pcs, pick)[t := pc]), t)
    ensures Moves(s, s.(pcs := WakeAll(s.pcs)[t := pc]), t)
  {
  }

  /** A client moves on outside the lock. */
  lemma ClientGotoInv(s: State, t: Tid, pc: Pc)
    requires Inv(s) && t >= s.workers && !IsWorkerPc(pc)
    requires !InLock(At(s, t)) && !InLock(pc) && !At(s, t).SAdd?
    requires ThreadOk(Goto(s, t, pc), t)
    ensures Inv(Goto(s, t, pc))
  {
    var s' := Goto(s, t, pc);
    assert ThreadOk(s, t);
    MoveInv(s, s', t);
  }

  lemma ClientGotoExited(s: State, t: Tid, pc: Pc, n: nat)
    requires t >= s.workers && AllExited(s, n)
    ensures AllExited(Goto(s, t, pc), n)
  {
    forall w | 0 <= w < n && w < s.workers ensures At(Goto(s, t, pc), w).WExit? {
      assert At(s, w).WExit?;
    }
  }

  lemma ClientLockInv(s: State, t: Tid, e: Event)
    requires Inv(s) && t >= s.workers && (At(s, t).SLock? || At(s, t).SUnlock?)
    ensures Inv(ClientStep(s, t, e))
  {
    var s' := ClientStep(s, t, e);
    assert ThreadOk(s, t);
    assert Moves(s, s', t);
    if s' != s {
      MoveInv(s, s', t);
    }
  }

  lemma ClientCallInv(s: State, t: Tid, e: Event)
    requires Inv(s) && t >= s.workers && At(s, t).Idle?
    ensures Inv(ClientStep(s, t, e))
  {
    assert ThreadOk(s, t);
    ClientGotoInv(s, t, Invoke(e.call));
  }

  lemma PauseInv(s: State, t: Tid, e: Event)
    requires Inv(s) && t >= s.workers && At(s, t).PauseStore?
    ensures Inv(ClientStep(s, t, e))
  {
    assert ThreadOk(s, t);
    MoveInv(s, ClientStep(s, t, e), t);
  }

  lemma ClientNotifyInv(s: State, t: Tid, e: Event)
    requires Inv(s) && t >= s.workers && (At(s, t).SNotify? || At(s, t).ResumeNotify?)
    ensures Inv(ClientStep(s, t, e))
  {
    var s' := ClientStep(s, t, e);
    assert ThreadOk(s, t);
    WakeMoves(s, t, Idle, e.pick);
    MoveInv(s, s', t);
  }

  lemma SubmitPushInv(s: State, t: Tid, e: Event)
    requires Inv(s) && t >= s.workers && At(s, t).SPush?
    ensures Inv(ClientStep(s, t, e))
  {
    var s' := ClientStep(s, t, e);
    assert ThreadOk(s, t);
    assert forall u | u != t :: At(s', u) == At(s, u);
    forall u ensures ThreadOk(s', u) {
      assert ThreadOk(s, u);
    }
    forall j | 0 <= j < |s'.fates| ensures FateOk(s', j) {
      if j < |s.fates| {
        assert FateOk(s, j);
      }
    }
  }

  lemma SubmitAddInv(s: State, t: Tid, e: Event)
    requires Inv(s) && t >= s.workers && At(s, t).SAdd?
    ensures Inv(ClientStep(s, t, e))
  {
    var s' := ClientStep(s, t, e);
    assert ThreadOk(s, t);
    assert forall u | u != t :: At(s', u) == At(s, u);
    forall u ensures ThreadOk(s', u) {
      assert ThreadOk(s, u);
    }
    forall j | 0 <= j < |s'.fates| ensures FateOk(s', j) {
      assert FateOk(s, j);
    }
  }

  lemma StopExchangeAgainInv(s: State, t: Tid)
    requires Inv(s) && t >= s.workers && At(s, t).StopExchange? && s.stopping
    ensures Inv(StopStep(s, t))
  {
    assert ThreadOk(s, t);
    ClientGotoInv(s, t, Idle);
  }

  lemma StopExchangeInv(s: State, t: Tid)
    requires Inv(s) && t >= s.workers && At(s, t).StopExchange? && !s.stopping
    ensures Inv(StopStep(s, t))
  {
    var s' := StopStep(s, t);
    assert ThreadOk(s, t);
    assert forall u | u != t :: At(s', u) == At(s, u);
    forall u ensures ThreadOk(s', u) {
      assert ThreadOk(s, u);
    }
    forall j | 0 <= j < |s'.fates| ensures FateOk(s', j) {
      assert FateOk(s, j);
    }
    StopExchangeCounts(s, t);
  }

  lemma StopExchangeCounts(s: State, t: Tid)
    requires Inv(s) && t >= s.workers && At(s, t).StopExchange? && !s.stopping
    ensures CountsOk(StopStep(s, t))
  {
    var s' := StopStep(s, t);
    assert ThreadOk(s, t);
    assert HolderPc(s') == HolderPc(s);
  }

  lemma StopNotifyInv(s: State, t: Tid)
    requires Inv(s) && t >= s.workers && At(s, t).StopNotify?
    ensures Inv(StopStep(s, t))
  {
    var s' := StopStep(s, t);
    assert ThreadOk(s, t);
    WakeMoves(s, t, At(s', t), t);
    MoveInv(s, s', t);
  }

  lemma StopPollInv(s: State, t: Tid)
    requires Inv(s) && t >= s.workers && At(s, t).StopPoll?
    ensures Inv(StopStep(s, t))
  {
    assert ThreadOk(s, t);
    if s.pending == 0 {
      ClientGotoInv(s, t, StopJoin(0));
    }
  }

  lemma StopJoinInv(s: State, t: Tid)
    requires Inv(s) && t >= s.workers && At(s, t).StopJoin?
    ensures Inv(StopStep(s, t))
  {
    var k := At(s, t).k;
    assert ThreadOk(s, t);
    if k >= s.workers {
      assert AllExited(s, s.workers);
      ClientGotoExited(s, t, StopLock, s.workers);
      ClientGotoInv(s, t, StopLock);
    } else if At(s, k).WExit? {
      assert AllExited(s, k + 1);
      ClientGotoExited(s, t, StopJoin(k + 1), k + 1);
      ClientGotoInv(s, t, StopJoin(k + 1));
    }
  }

  lemma StopLockInv(s: State, t: Tid)
    requires Inv(s) && t >= s.workers && (At(s, t).StopLock? || At(s, t).StopUnlock?)
    ensures Inv(StopStep(s, t))
  {
    var s' := StopStep(s, t);
    assert ThreadOk(s, t);
    assert Moves(s, s', t);
    if s' != s {
      MoveInv(s, s', t);
    }
  }

  lemma StopDrainThreads(s: State, t: Tid, u: Tid)
    requires Inv(s) && t >= s.workers && At(s, t).StopDrain?
    ensures ThreadOk(StopStep(s, t), u)
  {
    assert ThreadOk(s, t) && ThreadOk(s, u);
    assert forall w | w != t :: At(StopStep(s, t), w) == At(s, w);
    if s.queue != [] {
      assert FateOk(s, s.queue[0]);
    }
  }

  lemma StopDrainFates(s: State, t: Tid, k: Ticket)
    requires Inv(s) && t >= s.workers && At(s, t).StopDrain? && k < |s.fates|
    ensures FateOk(StopStep(s, t), k)
  {
    assert ThreadOk(s, t) && FateOk(s, k);
    assert forall w | w != t :: At(StopStep(s, t), w) == At(s, w);
  }

  lemma StopDrainInv(s: State, t: Tid)
    requires Inv(s) && t >= s.workers && At(s, t).StopDrain?
    ensures Inv(StopStep(s, t))
  {
    var s' := StopStep(s, t);
    assert ThreadOk(s, t);
    assert forall w | w != t :: At(s', w) == At(s, w);
    forall u ensures ThreadOk(s', u) {
      StopDrainThreads(s, t, u);
    }
    forall k | 0 <= k < |s'.fates| ensures FateOk(s', k) {
      StopDrainFates(s, t, k);
    }
  }

  /** The end of `Stop`, outside the lock: the stopper moves on and may reset the pending count. */
  function StopGoto(s: State, t: Tid, pc: Pc, pending: nat): State {
    Goto(s, t, pc).(pending := pending, stopping := true)
  }

  lemma StopEndThreads(s: State, t: Tid, pc: Pc, pending: nat, u: Tid)
    requires Inv(s) && t >= s.workers && (At(s, t).StopZero? || At(s, t).StopStore?) && (pc.StopStore? || pc.Idle?)
    ensures ThreadOk(StopGoto(s, t, pc, pending), u)
  {
    assert ThreadOk(s, t) && ThreadOk(s, u);
    assert forall w | w != t :: At(StopGoto(s, t, pc, pending), w) == At(s, w);
  }

  lemma StopEndInv(s: State, t: Tid, pc: Pc, pending: nat)
    requires Inv(s) && t >= s.workers && (At(s, t).StopZero? || At(s, t).StopStore?) && (pc.StopStore? || pc.Idle?)
    ensures Inv(StopGoto(s, t, pc, pending))
  {
    var s' := StopGoto(s, t, pc, pending);
    assert ThreadOk(s, t);
    assert forall u | u != t :: At(s', u) == At(s, u);
    forall u ensures ThreadOk(s', u) {
      StopEndThreads(s, t, pc, pending, u);
    }
    forall k | 0 <= k < |s'.fates| ensures FateOk(s', k) {
      assert FateOk(s, k);
    }
    assert HolderPc(s') == HolderPc(s);
  }

  lemma StopStepInv(s: State, t: Tid)
    requires Inv(s) && t >= s.workers && (InStop(At(s, t)) || At(s, t).StopExchange?)
    ensures Inv(StopStep(s, t))
  {
    match At(s, t)
    case StopExchange(_) => if s.stopping { StopExchangeAgainInv(s, t); } else { StopExchangeInv(s, t); }
    case StopNotify(_) => StopNotifyInv(s, t);
    case StopPoll => StopPollInv(s, t);
    case StopJoin(_) => StopJoinInv(s, t);
    case StopLock => StopLockInv(s, t);
    case StopUnlock => StopLockInv(s, t);
    case StopDrain => StopDrainInv(s, t);
    case StopZero => assert ThreadOk(s, t); StopEndInv(s, t, StopStore, 0);
    case StopStore => StopEndInv(s, t, Idle, s.pending);
  }

  lemma StepInv(s: State, e: Event)
    requires Inv(s)
    ensures Inv(Step(s, e))
  {
    var t, pc := e.tid, At(s, e.tid);
    assert ThreadOk(s, t);
    if t < s.workers {
      WorkerStepInv(s, t);
    } else if pc.SPush? {
      SubmitPushInv(s, t, e);
    } else if pc.SAdd? {
      SubmitAddInv(s, t, e);
    } else if InStop(pc) || pc.StopExchange? {
      StopStepInv(s, t);
      assert ClientStep(s, t, e) == StopStep(s, t);
    } else if pc.SLock? || pc.SUnlock? {
      ClientLockInv(s, t, e);
    } else if pc.SNotify? || pc.ResumeNotify? {
      ClientNotifyInv(s, t, e);
    } else if pc.PauseStore? {
      PauseInv(s, t, e);
    } else {
      ClientCallInv(s, t, e);
    }
  }

  lemma InitInv(workers: nat)
    ensures Inv(Init(workers))
  {
  }

  lemma {:induction false} RunInv(workers: nat, es: seq<Event>)
    ensures Inv(Run(Init(workers), es))
    decreases |es|
  {
    if es == [] {
      InitInv(workers);
    } else {
      RunInv(workers, es[..|es| - 1]);
      StepInv(Run(Init(workers), es[..|es| - 1]), es[|es| - 1]);
    }
  }
}
