/** Which tasks can run: what `Pause` holds back, and that an unpaused pool can always run its oldest task. */
module PoolPause {
  import opened Prelude
  import opened Pool
  import opened PoolProof
  import opened PoolTheorems
  import opened PoolShutdown

  // ---------- schedules that leave the pause flag alone ----------

  ghost predicate PauseUntouched(s: State, es: seq<Event>) {
    forall n | 0 <= n <= |es| :: Run(s, es[..n]).paused == s.paused
  }

  /** Some schedule that never changes the pause flag leads from one state to the other. */
  ghost predicate Reaches(s: State, s': State) {
    exists es: seq<Event> :: PauseUntouched(s, es) && Run(s, es) == s'
  }

  lemma ReachesNothingNew(s: State)
    ensures Reaches(s, s)
  {
    assert Run(s, []) == s;
    assert PauseUntouched(s, []);
  }

  lemma ReachesOn(s: State, s': State, e: Event)
    requires Reaches(s, s') && Step(s', e).paused == s.paused
    ensures Reaches(s, Step(s', e))
  {
    var es: seq<Event> :| PauseUntouched(s, es) && Run(s, es) == s';
    RunSnoc(s, es, e);
    forall n | 0 <= n <= |es| + 1 ensures Run(s, (es + [e])[..n]).paused == s.paused {
      if n <= |es| {
        assert (es + [e])[..n] == es[..n];
      } else {
        assert (es + [e])[..n] == es + [e];
      }
    }
    assert PauseUntouched(s, es + [e]);
  }

  lemma {:induction false} ReachesRun(s: State, s': State, es: seq<Event>)
    requires Reaches(s, s') && PauseUntouched(s', es)
    ensures Reaches(s, Run(s', es))
    decreases |es|
  {
    assert es[..|es|] == es;
    assert Run(s', es[..0]).paused == s'.paused;
    var fs: seq<Event> :| PauseUntouched(s, fs) && Run(s, fs) == s';
    assert fs[..|fs|] == fs;
    if es == [] {
    } else {
      var before := es[..|es| - 1];
      forall n | 0 <= n <= |before| ensures Run(s', before[..n]).paused == s'.paused {
        assert before[..n] == es[..n];
      }
      ReachesRun(s, s', before);
      ReachesOn(s, Run(s', before), es[|es| - 1]);
    }
  }

  lemma ReachesTrans(a: State, b: State, c: State)
    requires Reaches(a, b) && Reaches(b, c)
    ensures Reaches(a, c)
  {
    var es: seq<Event> :| PauseUntouched(b, es) && Run(b, es) == c;
    ReachesRun(a, b, es);
  }

  // ---------- what Pause holds back ----------

  /** Between the pause test and taking a task. */
  predicate PastTest(pc: Pc) {
    pc.WLock? || pc.WRelock? || pc.WAsleep? || pc.WEmptyLoop? || pc.WStopLoop? || pc.WEmptyTest? || pc.WStopTest? ||
    pc.WTake?
  }

  lemma PausedStep(s: State, w: Tid, e: Event)
    requires Inv(s) && s.paused && w < s.workers && !PastTest(At(s, w))
    ensures !PastTest(At(Step(s, e), w))
    ensures Carried(At(Step(s, e), w)) == None || Carried(At(Step(s, e), w)) == Carried(At(s, w))
  {
    StepFrame(s, e);
    assert ThreadOk(s, w);
  }

  /** While the pool stays paused no schedule lets a worker before the pause test pass it, or take another task. */
  lemma {:induction false} PauseHolds(s: State, w: Tid, es: seq<Event>)
    requires Inv(s) && s.paused && w < s.workers && !PastTest(At(s, w)) && PauseUntouched(s, es)
    ensures Inv(Run(s, es)) && Run(s, es).workers == s.workers && !PastTest(At(Run(s, es), w))
    ensures Carried(At(Run(s, es), w)) == None || Carried(At(Run(s, es), w)) == Carried(At(s, w))
    decreases |es|
  {
    if es == [] {
    } else {
      var before := es[..|es| - 1];
      forall n | 0 <= n <= |before| ensures Run(s, before[..n]).paused == s.paused {
        assert before[..n] == es[..n];
      }
      assert Run(s, before).paused;
      PauseHolds(s, w, before);
      PausedStep(Run(s, before), w, es[|es| - 1]);
      StepInv(Run(s, before), es[|es| - 1]);
      StepFrame(Run(s, before), es[|es| - 1]);
    }
  }

  // ---------- driving a worker to a task ----------

  /** How far a worker is from the oldest task, if nobody else holds the lock. */
  function TakeRank(pc: Pc): nat {
    match pc
    case WSub(_) => 14
    case WUnlock(_) => 13
    case WRun(_) => 12
    case WSet(_) => 11
    case WTop => 10
    case WPauseTest => 9
    case WStopLoop => 8
    case WAsleep => 7
    case WLock => 6
    case WRelock => 6
    case WEmptyLoop => 5
    case WEmptyTest => 4
    case WStopTest => 3
    case WTake => 2
    case _ => 0
  }

  /** A worker that may go for a task, with the lock to itself. */
  ghost predicate CanTake(s: State, w: Tid) {
    && Inv(s) && !s.stopping && w < s.workers && s.queue != []
    && (s.holder == None || s.holder == Some(w)) && (PastTest(At(s, w)) || !s.paused)
  }

  lemma TakeNears(s: State, w: Tid)
    requires CanTake(s, w)
    ensures var s' := WorkerStep(s, w);
            && s'.paused == s.paused && !s'.stopping && s'.workers == s.workers
            && (s'.holder == None || s'.holder == Some(w))
            && if At(s, w).WTake? then At(s', w) == WSub(s.queue[0])
               else
                 && s'.queue == s.queue && TakeRank(At(s', w)) < TakeRank(At(s, w))
                 && (PastTest(At(s', w)) || !s'.paused)
  {
    assert ThreadOk(s, w);
  }

  /** Such a worker can be brought to take the oldest task. */
  lemma DriveToTake(s: State, w: Tid) returns (s': State)
    requires CanTake(s, w)
    ensures Reaches(s, s') && Inv(s') && s'.workers == s.workers && At(s', w) == WSub(s.queue[0])
  {
    s' := s;
    ReachesNothingNew(s);
    while !At(s', w).WTake?
      invariant Reaches(s, s') && CanTake(s', w) && s'.queue == s.queue && s'.paused == s.paused
      invariant s'.workers == s.workers
      decreases TakeRank(At(s', w))
    {
      TakeNears(s', w);
      StepInv(s', Next(w));
      ReachesOn(s, s', Next(w));
      s' := WorkerStep(s', w);
    }
    TakeNears(s', w);
    StepInv(s', Next(w));
    ReachesOn(s, s', Next(w));
    s' := WorkerStep(s', w);
  }

  /** From taking a task to having set its future. */
  function CarryPc(k: Ticket, stage: nat): Pc {
    if stage == 0 then WSub(k) else if stage == 1 then WUnlock(Some(k)) else if stage == 2 then WRun(k) else WSet(k)
  }

  lemma CarryNext(s: State, w: Tid, k: Ticket, stage: nat)
    requires w < s.workers && stage < 4 && At(s, w) == CarryPc(k, stage)
    ensures var s' := Step(s, Next(w));
            && s'.paused == s.paused && s'.workers == s.workers
            && (stage < 3 ==> At(s', w) == CarryPc(k, stage + 1))
            && (stage == 2 ==> k in s'.executed) && (stage == 3 ==> s'.executed == s.executed && k in s'.ready)
  {
  }

  /** A worker that has taken a task can run it and set its future. */
  lemma DriveToSet(s: State, w: Tid, k: Ticket) returns (s': State)
    requires w < s.workers && At(s, w) == WSub(k)
    ensures Reaches(s, s') && k in s'.executed && k in s'.ready
  {
    s' := s;
    ReachesNothingNew(s);
    for stage := 0 to 3
      invariant Reaches(s, s') && At(s', w) == CarryPc(k, stage) && s'.paused == s.paused && s'.workers == s.workers
      invariant stage == 3 ==> k in s'.executed
    {
      CarryNext(s', w, k, stage);
      ReachesOn(s, s', Next(w));
      s' := Step(s', Next(w));
    }
    CarryNext(s', w, k, 3);
    ReachesOn(s, s', Next(w));
    s' := Step(s', Next(w));
  }

  // ---------- freeing the lock ----------

  function HoldRank(pc: Pc): nat {
    match pc
    case WEmptyLoop => 6
    case WStopLoop => 5
    case WEmptyTest => 5
    case WStopTest => 4
    case WTake => 3
    case WSub(_) => 2
    case SPush => 3
    case SAdd => 2
    case _ => 1
  }

  /** The thread in the lock moves on; nobody else does. */
  lemma HolderNears(s: State)
    requires Inv(s) && !s.stopping && s.holder.Some?
    ensures var h := s.holder.value; var s' := Step(s, Next(h));
            && s'.paused == s.paused && !s'.stopping && s'.workers == s.workers
            && (s'.holder == None || (s'.holder == Some(h) && HoldRank(At(s', h)) < HoldRank(At(s, h))))
            && forall u | u != h :: At(s', u) == At(s, u)
  {
    var h := s.holder.value;
    assert ThreadOk(s, h);
  }

  /** A submitter in the lock leaves the oldest task where it is. */
  lemma SubmitterKeepsOldest(s: State)
    requires Inv(s) && !s.stopping && s.holder.Some? && s.holder.value >= s.workers
    ensures s.queue <= Step(s, Next(s.holder.value)).queue
  {
    assert ThreadOk(s, s.holder.value);
  }

  lemma FreeForTask(s: State) returns (s': State)
    requires Inv(s) && !s.stopping && s.queue != [] && (s.holder == None || s.holder.value >= s.workers)
    ensures Reaches(s, s') && Inv(s') && !s'.stopping && s'.paused == s.paused && s'.workers == s.workers
    ensures s'.holder == None && s.queue <= s'.queue
  {
    s' := s;
    ReachesNothingNew(s);
    while s'.holder != None
      invariant Reaches(s, s') && Inv(s') && !s'.stopping && s'.paused == s.paused && s'.workers == s.workers
      invariant s'.holder == None || s'.holder.value >= s'.workers
      invariant s.queue <= s'.queue
      decreases if s'.holder == None then 0 else HoldRank(HolderPc(s'))
    {
      var e := Next(s'.holder.value);
      HolderNears(s');
      SubmitterKeepsOldest(s');
      StepInv(s', e);
      ReachesOn(s, s', e);
      s' := Step(s', e);
    }
  }

  /**
   From any reachable state of a pool that has workers and a task waiting, and is neither stopping nor paused, some
   schedule runs the oldest task and sets its future.
   */
  lemma OldestTaskCanRun(s: State) returns (es: seq<Event>)
    requires Reached(s) && s.workers > 0 && s.queue != [] && !s.stopping && !s.paused
    ensures s.queue[0] in Run(s, es).executed && s.queue[0] in Run(s, es).ready
  {
    ReachedInv(s);
    var free, w := s, 0;
    ReachesNothingNew(s);
    if s.holder.Some? && s.holder.value < s.workers {
      w := s.holder.value;
    } else {
      free := FreeForTask(s);
    }
    var taken := DriveToTake(free, w);
    ReachesTrans(s, free, taken);
    var done := DriveToSet(taken, w, s.queue[0]);
    ReachesTrans(s, taken, done);
    es :| PauseUntouched(s, es) && Run(s, es) == done;
  }

  // ---------- what Pause does not hold back ----------

  ghost predicate WaitsPastTest(s: State, w: Tid) {
    Inv(s) && !s.stopping && w < s.workers && s.holder != Some(w) && PastTest(At(s, w))
  }

  lemma OtherHolderNears(s: State, w: Tid)
    requires WaitsPastTest(s, w) && s.holder.Some?
    ensures var s' := Step(s, Next(s.holder.value));
            && WaitsPastTest(s', w) && s'.paused == s.paused && s'.workers == s.workers
            && (s'.holder == None || HoldRank(HolderPc(s')) < HoldRank(HolderPc(s)))
  {
    HolderNears(s);
    StepInv(s, Next(s.holder.value));
  }

  lemma {:induction false} FreeOthers(s: State, w: Tid) returns (s': State)
    requires WaitsPastTest(s, w)
    ensures Reaches(s, s') && WaitsPastTest(s', w) && s'.paused == s.paused && s'.workers == s.workers
    ensures s'.holder == None
    decreases if s.holder == None then 0 else HoldRank(HolderPc(s))
  {
    ReachesNothingNew(s);
    if s.holder == None {
      s' := s;
    } else {
      var e := Next(s.holder.value);
      OtherHolderNears(s, w);
      ReachesOn(s, s, e);
      s' := FreeOthers(Step(s, e), w);
      ReachesTrans(s, Step(s, e), s');
    }
  }

  /** A worker that finds the queue empty goes to sleep, and gives the lock back. */
  lemma FallAsleep(s: State, w: Tid) returns (s': State)
    requires Inv(s) && !s.stopping && w < s.workers && s.holder == Some(w) && PastTest(At(s, w)) && s.queue == []
    ensures Reaches(s, s') && Inv(s') && !s'.stopping && s'.paused == s.paused && s'.workers == s.workers
    ensures s'.holder == None && PastTest(At(s', w))
  {
    assert ThreadOk(s, w);
    ReachesNothingNew(s);
    s' := s;
    if At(s, w).WEmptyLoop? {
      StepInv(s, Next(w));
      ReachesOn(s, s, Next(w));
      s' := Step(s, Next(w));
    }
    StepInv(s', Next(w));
    ReachesOn(s, s', Next(w));
    s' := Step(s', Next(w));
  }

  lemma {:induction false} IdleClient(pcs: map<Tid, Pc>, from: Tid) returns (c: Tid)
    ensures c >= from && c !in pcs
    decreases |pcs.Keys|
  {
    if from !in pcs {
      c := from;
    } else {
      var rest := map u | u in pcs && u != from :: pcs[u];
      assert rest.Keys == pcs.Keys - {from};
      c := IdleClient(rest, from + 1);
    }
  }

  function SubmitPc(stage: nat): Pc {
    if stage == 0 then Idle else if stage == 1 then SLock else if stage == 2 then SPush
    else if stage == 3 then SAdd else if stage == 4 then SUnlock else SNotify
  }

  ghost predicate SubmitStands(s: State, c: Tid, stage: nat) {
    && c >= s.workers && At(s, c) == SubmitPc(stage) && !s.stopping
    && s.holder == (if 2 <= stage <= 4 then Some(c) else None) && (stage >= 3 ==> s.queue != [])
  }

  lemma SubmitNext(s: State, c: Tid, stage: nat)
    requires SubmitStands(s, c, stage) && stage < 5
    ensures var s' := Step(s, Event(c, CallSubmit, 0));
            && SubmitStands(s', c, stage + 1) && s'.paused == s.paused && s'.workers == s.workers
            && forall u | u != c :: At(s', u) == At(s, u)
  {
  }

  /** With the lock free a client that was idle can enqueue a task. */
  lemma Submit(s: State, c: Tid) returns (s': State)
    requires Inv(s) && SubmitStands(s, c, 0)
    ensures Reaches(s, s') && Inv(s') && !s'.stopping && s'.paused == s.paused && s'.workers == s.workers
    ensures s'.holder == None && s'.queue != [] && forall u | u != c :: At(s', u) == At(s, u)
  {
    var e := Event(c, CallSubmit, 0);
    s' := s;
    ReachesNothingNew(s);
    for stage := 0 to 5
      invariant Reaches(s, s') && Inv(s') && SubmitStands(s', c, stage)
      invariant s'.paused == s.paused && s'.workers == s.workers
      invariant forall u | u != c :: At(s', u) == At(s, u)
    {
      SubmitNext(s', c, stage);
      StepInv(s', e);
      ReachesOn(s, s', e);
      s' := Step(s', e);
    }
  }

  /** Whatever the pause flag says, a worker past the test can be brought to take a task. */
  lemma PastTestCanTake(s: State, w: Tid) returns (s': State)
    requires Inv(s) && !s.stopping && w < s.workers && PastTest(At(s, w))
    ensures Reaches(s, s') && At(s', w).WSub?
  {
    var free := s;
    ReachesNothingNew(s);
    if s.holder == Some(w) {
      if s.queue == [] {
        free := FallAsleep(s, w);
      }
    } else {
      free := FreeOthers(s, w);
    }
    var full := free;
    ReachesNothingNew(free);
    if free.queue == [] {
      var c := IdleClient(free.pcs, free.workers);
      full := Submit(free, c);
    }
    ReachesTrans(s, free, full);
    s' := DriveToTake(full, w);
    ReachesTrans(s, full, s');
  }

  ghost predicate TakesAnother(s: State, w: Tid, es: seq<Event>) {
    Carried(At(Run(s, es), w)).Some? && Carried(At(Run(s, es), w)) != Carried(At(s, w))
  }

  /**
   `Pause` holds a worker back if and only if it has not passed the pause test yet.  One that waits for a task, even
   asleep, can take the next task although the pool stays paused all along.
   */
  lemma PauseHoldsIff(s: State, w: Tid)
    requires Reached(s) && s.paused && !s.stopping && w < s.workers
    ensures (exists es: seq<Event> :: PauseUntouched(s, es) && TakesAnother(s, w, es)) <==> PastTest(At(s, w))
  {
    ReachedInv(s);
    if PastTest(At(s, w)) {
      var s' := PastTestCanTake(s, w);
      var es: seq<Event> :| PauseUntouched(s, es) && Run(s, es) == s';
      assert TakesAnother(s, w, es);
    } else {
      forall es: seq<Event> | PauseUntouched(s, es) ensures !TakesAnother(s, w, es) {
        PauseHolds(s, w, es);
      }
    }
  }
}
