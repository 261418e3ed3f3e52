/** Every call of a client of the pool, from the event that began it: what it did by the time it returned. */
module PoolCalls {
  import opened Prelude
  import opened Pool
  import opened PoolProof
  import opened PoolTheorems

  /** `ss` are the states that the schedule `es` goes through. */
  ghost predicate Trace(ss: seq<State>, es: seq<Event>) {
    && |ss| == |es| + 1
    && forall n {:trigger es[n]} | 0 <= n < |es| :: ss[n + 1] == Step(ss[n], es[n])
  }

  lemma TraceSnoc(ss: seq<State>, es: seq<Event>, e: Event, s': State)
    requires Trace(ss, es) && s' == Step(ss[|es|], e)
    ensures Trace(ss + [s'], es + [e])
  {
    var ss', es' := ss + [s'], es + [e];
    forall n | 0 <= n < |es'| ensures ss'[n + 1] == Step(ss'[n], es'[n]) {
      if n < |es| {
        assert ss'[n + 1] == ss[n + 1] && ss'[n] == ss[n] && es'[n] == es[n];
      }
    }
  }

  lemma RunLast(s: State, es: seq<Event>, k: nat)
    requires |es| == k + 1
    ensures Run(s, es) == Step(Run(s, es[..k]), es[k]) && es == es[..k] + [es[k]]
  {
  }

  lemma {:induction false} EveryRunHasATrace(s: State, es: seq<Event>) returns (ss: seq<State>)
    ensures Trace(ss, es) && ss[0] == s && ss[|es|] == Run(s, es)
    decreases |es|
  {
    if es == [] {
      ss := [s];
    } else {
      var k := |es| - 1;
      var before := EveryRunHasATrace(s, es[..k]);
      var s' := Run(s, es);
      RunLast(s, es, k);
      TraceSnoc(before, es[..k], es[k], s');
      ss := before + [s'];
    }
  }

  lemma {:induction false} TraceInv(ss: seq<State>, es: seq<Event>, n: nat)
    requires Trace(ss, es) && Inv(ss[0]) && n <= |es|
    ensures Inv(ss[n]) && ss[n].workers == ss[0].workers
    decreases n
  {
    if n == 0 {
    } else {
      TraceInv(ss, es, n - 1);
      StepInv(ss[n - 1], es[n - 1]);
      StepFrame(ss[n - 1], es[n - 1]);
    }
  }

  /** The first event begins a call of the client `t`, and the call has not ended before the last one. */
  ghost predicate OneCall(ss: seq<State>, es: seq<Event>, t: Tid) {
    && Trace(ss, es) && Inv(ss[0]) && t >= ss[0].workers
    && es != [] && es[0].tid == t && At(ss[0], t).Idle?
    && forall n | 0 < n < |es| :: !At(ss[n], t).Idle?
  }

  // ---------- what a call may have done ----------

  /** The call left queue and tasks alone from `a` up to `b`. */
  ghost predicate QueueQuiet(ss: seq<State>, es: seq<Event>, t: Tid, a: nat, b: nat)
    requires |ss| == |es| + 1 && b <= |es|
  {
    forall n {:trigger es[n]} | a <= n < b && es[n].tid == t ::
      ss[n + 1].queue == ss[n].queue && ss[n + 1].fates == ss[n].fates
  }

  ghost predicate PendingQuiet(ss: seq<State>, es: seq<Event>, t: Tid, a: nat, b: nat)
    requires |ss| == |es| + 1 && b <= |es|
  {
    forall n {:trigger es[n]} | a <= n < b && es[n].tid == t ::
      ss[n + 1].pending == ss[n].pending
  }

  ghost predicate FlagsQuiet(ss: seq<State>, es: seq<Event>, t: Tid, a: nat, b: nat)
    requires |ss| == |es| + 1 && b <= |es|
  {
    forall n {:trigger es[n]} | a <= n < b && es[n].tid == t ::
      ss[n + 1].paused == ss[n].paused && ss[n + 1].stopping == ss[n].stopping
  }

  ghost predicate Quiet(ss: seq<State>, es: seq<Event>, t: Tid, m: nat)
    requires |ss| == |es| + 1 && m <= |es|
  {
    QueueQuiet(ss, es, t, 0, m) && PendingQuiet(ss, es, t, 0, m) && FlagsQuiet(ss, es, t, 0, m)
  }

  /** In exactly one of its steps the call appended a new task to the queue. */
  ghost predicate Enqueued(ss: seq<State>, es: seq<Event>, t: Tid, m: nat)
    requires |ss| == |es| + 1 && m <= |es|
  {
    exists a: nat :: EnqueuedAt(ss, es, t, m, a)
  }

  ghost predicate EnqueuedAt(ss: seq<State>, es: seq<Event>, t: Tid, m: nat, a: nat)
    requires |ss| == |es| + 1 && m <= |es|
  {
    && a < m && es[a].tid == t && QueueQuiet(ss, es, t, 0, a) && QueueQuiet(ss, es, t, a + 1, m)
    && ss[a + 1].queue == ss[a].queue + [|ss[a].fates|] && ss[a + 1].fates == ss[a].fates + [Queued]
  }

  /** In exactly one of its steps the call raised the pending count, by one. */
  ghost predicate CountedIn(ss: seq<State>, es: seq<Event>, t: Tid, m: nat)
    requires |ss| == |es| + 1 && m <= |es|
  {
    exists b: nat :: CountedAt(ss, es, t, m, b)
  }

  ghost predicate CountedAt(ss: seq<State>, es: seq<Event>, t: Tid, m: nat, b: nat)
    requires |ss| == |es| + 1 && m <= |es|
  {
    && b < m && es[b].tid == t && PendingQuiet(ss, es, t, 0, b) && PendingQuiet(ss, es, t, b + 1, m)
    && ss[b + 1].pending == ss[b].pending + 1
  }

  /** The sleeper chosen for the call's notification, if it slept, was woken. */
  ghost predicate WokeOne(ss: seq<State>, es: seq<Event>, t: Tid, m: nat)
    requires |ss| == |es| + 1 && m <= |es|
  {
    exists d {:trigger es[d]} :: 0 <= d < m && es[d].tid == t && At(ss[d], t).SNotify? &&
                (At(ss[d], es[d].pick).WAsleep? ==> At(ss[d + 1], es[d].pick).WRelock?)
  }

  ghost predicate NoSleeper(s: State) {
    forall w :: !At(s, w).WAsleep?
  }

  ghost predicate WokeAll(ss: seq<State>, es: seq<Event>, t: Tid, m: nat)
    requires |ss| == |es| + 1 && m <= |es|
  {
    exists d {:trigger es[d]} :: 0 <= d < m && es[d].tid == t && NoSleeper(ss[d + 1])
  }

  /** In exactly one of its steps the call wrote the pause flag, and it left the stop flag alone. */
  ghost predicate PausedTo(ss: seq<State>, es: seq<Event>, t: Tid, m: nat, value: bool)
    requires |ss| == |es| + 1 && m <= |es|
  {
    exists a: nat :: PausedAt(ss, es, t, m, a, value)
  }

  ghost predicate PausedAt(ss: seq<State>, es: seq<Event>, t: Tid, m: nat, a: nat, value: bool)
    requires |ss| == |es| + 1 && m <= |es|
  {
    && a < m && es[a].tid == t && FlagsQuiet(ss, es, t, 0, a) && FlagsQuiet(ss, es, t, a + 1, m)
    && ss[a + 1].paused == value && ss[a + 1].stopping == ss[a].stopping
  }

  /** The call set the stop flag. */
  ghost predicate WonStop(ss: seq<State>, es: seq<Event>, t: Tid, m: nat)
    requires |ss| == |es| + 1 && m <= |es|
  {
    exists a {:trigger es[a]} :: 0 <= a < m && es[a].tid == t && !ss[a].stopping && ss[a + 1].stopping
  }

  ghost predicate SawStop(ss: seq<State>, es: seq<Event>, t: Tid, m: nat)
    requires |ss| == |es| + 1 && m <= |es|
  {
    exists a {:trigger es[a]} :: 0 <= a < m && es[a].tid == t && ss[a].stopping
  }

  /** The call waited, and saw the pending count at zero. */
  ghost predicate SawZero(ss: seq<State>, es: seq<Event>, t: Tid, m: nat)
    requires |ss| == |es| + 1 && m <= |es|
  {
    exists b {:trigger es[b]} :: 0 <= b < m && es[b].tid == t && At(ss[b], t).StopPoll? && ss[b].pending == 0
  }

  /** The call discarded what was queued until it found the queue empty. */
  ghost predicate EmptiedQueue(ss: seq<State>, es: seq<Event>, t: Tid, m: nat)
    requires |ss| == |es| + 1 && m <= |es|
  {
    exists c {:trigger es[c]} :: 0 <= c < m && es[c].tid == t && ss[c].queue == [] && ss[c + 1].drained
  }

  /** The call reset the pending count. */
  ghost predicate Zeroed(ss: seq<State>, es: seq<Event>, t: Tid, m: nat)
    requires |ss| == |es| + 1 && m <= |es|
  {
    exists c {:trigger es[c]} :: 0 <= c < m && es[c].tid == t && ss[c + 1].drained && ss[c + 1].pending == 0
  }

  ghost predicate NeverWaited(ss: seq<State>, t: Tid, m: nat)
    requires m < |ss|
  {
    forall n | 0 <= n <= m :: !At(ss[n], t).StopPoll?
  }

  // ---------- where a call stands ----------

  ghost predicate SubmitStands(ss: seq<State>, es: seq<Event>, t: Tid, m: nat)
    requires |ss| == |es| + 1 && m <= |es|
  {
    && FlagsQuiet(ss, es, t, 0, m)
    && match At(ss[m], t)
       case SLock => QueueQuiet(ss, es, t, 0, m) && PendingQuiet(ss, es, t, 0, m)
       case SPush => QueueQuiet(ss, es, t, 0, m) && PendingQuiet(ss, es, t, 0, m)
       case SAdd => Enqueued(ss, es, t, m) && PendingQuiet(ss, es, t, 0, m)
       case SUnlock => Enqueued(ss, es, t, m) && CountedIn(ss, es, t, m)
       case SNotify => Enqueued(ss, es, t, m) && CountedIn(ss, es, t, m)
       case Idle => Enqueued(ss, es, t, m) && CountedIn(ss, es, t, m) && WokeOne(ss, es, t, m)
       case _ => false
  }

  ghost predicate PauseStands(ss: seq<State>, es: seq<Event>, t: Tid, m: nat, value: bool)
    requires |ss| == |es| + 1 && m <= |es|
  {
    && QueueQuiet(ss, es, t, 0, m) && PendingQuiet(ss, es, t, 0, m)
    && match At(ss[m], t)
       case PauseStore(v) => v == value && FlagsQuiet(ss, es, t, 0, m)
       case ResumeNotify => !value && PausedTo(ss, es, t, m, value)
       case Idle => PausedTo(ss, es, t, m, value) && (!value ==> WokeAll(ss, es, t, m))
       case _ => false
  }

  /** What `Stop` has behind it when it no longer waits. */
  ghost predicate WaitIsOver(ss: seq<State>, es: seq<Event>, t: Tid, m: nat, wait: bool)
    requires |ss| == |es| + 1 && m <= |es|
  {
    && WonStop(ss, es, t, m) && WokeAll(ss, es, t, m)
    && if wait then SawZero(ss, es, t, m) else NeverWaited(ss, t, m)
  }

  ghost predicate StopStands(ss: seq<State>, es: seq<Event>, t: Tid, m: nat, wait: bool)
    requires |ss| == |es| + 1 && m <= |es|
  {
    var pc := At(ss[m], t);
    if pc.Idle? then
      || (SawStop(ss, es, t, m) && Quiet(ss, es, t, m))
      || (WaitIsOver(ss, es, t, m, wait) && ss[m].drained && EmptiedQueue(ss, es, t, m) && Zeroed(ss, es, t, m))
    else if pc.StopExchange? then pc.wait == wait && Quiet(ss, es, t, m) && NeverWaited(ss, t, m)
    else if pc.StopNotify? then pc.wait == wait && WonStop(ss, es, t, m) && NeverWaited(ss, t, m)
    else if pc.StopPoll? then wait && WonStop(ss, es, t, m) && WokeAll(ss, es, t, m)
    else
      && (pc.StopJoin? || AfterJoin(pc)) && WaitIsOver(ss, es, t, m, wait)
      && (pc.StopUnlock? || pc.StopZero? || pc.StopStore? ==> EmptiedQueue(ss, es, t, m))
      && (pc.StopStore? ==> Zeroed(ss, es, t, m))
  }

  ghost predicate Stands(ss: seq<State>, es: seq<Event>, t: Tid, m: nat)
    requires |ss| == |es| + 1 && m <= |es| && es != []
  {
    match es[0].call
    case CallSubmit => SubmitStands(ss, es, t, m)
    case CallPause => PauseStands(ss, es, t, m, true)
    case CallResume => PauseStands(ss, es, t, m, false)
    case CallStop(wait) => StopStands(ss, es, t, m, wait)
  }

  // ---------- single steps ----------

  lemma OtherMoves(s: State, e: Event, t: Tid)
    requires Inv(s) && t >= s.workers && e.tid != t
    ensures At(Step(s, e), t) == At(s, t)
  {
    StepFrame(s, e);
    assert ThreadOk(s, t);
  }

  /** What the steps of a call may do, one predicate per part of it. */
  ghost predicate SubmitEffect(s: State, t: Tid, s': State) {
    var pc, pc' := At(s, t), At(s', t);
    && s'.paused == s.paused && s'.stopping == s.stopping
    && (if pc.SPush? then s'.queue == s.queue + [|s.fates|] && s'.fates == s.fates + [Queued]
        else s'.queue == s.queue && s'.fates == s.fates)
    && s'.pending == s.pending + (if pc.SAdd? then 1 else 0)
    && match pc
       case SLock => pc' == SLock || pc' == SPush
       case SPush => pc' == SAdd
       case SAdd => pc' == SUnlock
       case SUnlock => pc' == SNotify
       case _ => false
  }

  lemma SubmitActs(s: State, e: Event)
    requires e.tid >= s.workers
    requires At(s, e.tid).SLock? || At(s, e.tid).SPush? || At(s, e.tid).SAdd? || At(s, e.tid).SUnlock?
    ensures SubmitEffect(s, e.tid, Step(s, e))
  {
  }

  /** Nothing but program counters changes. */
  ghost predicate OnlyPcs(s: State, s': State) {
    && s'.queue == s.queue && s'.fates == s.fates && s'.pending == s.pending
    && s'.paused == s.paused && s'.stopping == s.stopping
  }

  lemma NotifyActs(s: State, e: Event)
    requires e.tid >= s.workers && At(s, e.tid).SNotify?
    ensures OnlyPcs(s, Step(s, e)) && At(Step(s, e), e.tid).Idle?
    ensures At(s, e.pick).WAsleep? ==> At(Step(s, e), e.pick).WRelock?
  {
  }

  ghost predicate PauseEffect(s: State, t: Tid, s': State) {
    var pc := At(s, t);
    && s'.queue == s.queue && s'.fates == s.fates && s'.pending == s.pending && s'.stopping == s.stopping
    && (if pc.PauseStore? then
          s'.paused == pc.value && At(s', t) == if pc.value then Idle else ResumeNotify
        else
          s'.paused == s.paused && At(s', t).Idle? && NoSleeper(s'))
  }

  lemma PauseActs(s: State, e: Event)
    requires e.tid >= s.workers && (At(s, e.tid).PauseStore? || At(s, e.tid).ResumeNotify?)
    ensures PauseEffect(s, e.tid, Step(s, e))
  {
    assert Step(s, e) == ClientStep(s, e.tid, e);
    if At(s, e.tid).ResumeNotify? {
      WakesEverybody(s, e.tid, Idle);
    }
  }

  lemma WakesEverybody(s: State, t: Tid, pc: Pc)
    requires !pc.WAsleep?
    ensures NoSleeper(s.(pcs := WakeAll(s.pcs)[t := pc]))
  {
  }

  ghost predicate StopEffect(s: State, t: Tid, s': State) {
    var pc' := At(s', t);
    match At(s, t)
    case StopExchange(wait) =>
      if s.stopping then OnlyPcs(s, s') && pc' == Idle else s'.stopping && pc' == StopNotify(wait)
    case StopNotify(wait) => NoSleeper(s') && pc' == (if wait then StopPoll else StopJoin(0))
    case StopPoll => pc' == (if s.pending == 0 then StopJoin(0) else StopPoll)
    case StopJoin(_) => pc'.StopJoin? || pc'.StopLock?
    case StopLock => pc'.StopLock? || pc'.StopDrain?
    case StopDrain => s'.drained && (if s.queue == [] then pc'.StopUnlock? else pc'.StopDrain?)
    case StopUnlock => pc'.StopZero?
    case StopZero => pc'.StopStore? && s'.drained && s'.pending == 0
    case StopStore => pc'.Idle? && s'.drained
    case _ => false
  }

  lemma StopActs(s: State, e: Event)
    requires e.tid >= s.workers && (At(s, e.tid).StopExchange? || At(s, e.tid).StopNotify? || At(s, e.tid).StopPoll?)
    ensures StopEffect(s, e.tid, Step(s, e))
  {
    assert Step(s, e) == StopStep(s, e.tid);
    match At(s, e.tid)
    case StopNotify(wait) => WakesEverybody(s, e.tid, if wait then StopPoll else StopJoin(0));
    case _ =>
  }

  lemma JoinActs(s: State, e: Event)
    requires Inv(s) && e.tid >= s.workers && (At(s, e.tid).StopJoin? || AfterJoin(At(s, e.tid)))
    ensures StopEffect(s, e.tid, Step(s, e))
  {
    assert ThreadOk(s, e.tid);
    assert Step(s, e) == StopStep(s, e.tid);
  }

  // ---------- one more event ----------

  lemma EnqueuedOn(ss: seq<State>, es: seq<Event>, t: Tid, m: nat)
    requires |ss| == |es| + 1 && m < |es| && Enqueued(ss, es, t, m)
    requires es[m].tid == t ==> ss[m + 1].queue == ss[m].queue && ss[m + 1].fates == ss[m].fates
    ensures Enqueued(ss, es, t, m + 1)
  {
    var a: nat :| EnqueuedAt(ss, es, t, m, a);
    assert EnqueuedAt(ss, es, t, m + 1, a);
  }

  lemma CountedOn(ss: seq<State>, es: seq<Event>, t: Tid, m: nat)
    requires |ss| == |es| + 1 && m < |es| && CountedIn(ss, es, t, m)
    requires es[m].tid == t ==> ss[m + 1].pending == ss[m].pending
    ensures CountedIn(ss, es, t, m + 1)
  {
    var b: nat :| CountedAt(ss, es, t, m, b);
    assert CountedAt(ss, es, t, m + 1, b);
  }

  lemma PausedOn(ss: seq<State>, es: seq<Event>, t: Tid, m: nat, value: bool)
    requires |ss| == |es| + 1 && m < |es| && PausedTo(ss, es, t, m, value)
    requires es[m].tid == t ==> ss[m + 1].paused == ss[m].paused && ss[m + 1].stopping == ss[m].stopping
    ensures PausedTo(ss, es, t, m + 1, value)
  {
    var a: nat :| PausedAt(ss, es, t, m, a, value);
    assert PausedAt(ss, es, t, m + 1, a, value);
  }

  lemma StopFactsOn(ss: seq<State>, es: seq<Event>, t: Tid, m: nat)
    requires |ss| == |es| + 1 && m < |es|
    ensures WonStop(ss, es, t, m) ==> WonStop(ss, es, t, m + 1)
    ensures WokeAll(ss, es, t, m) ==> WokeAll(ss, es, t, m + 1)
    ensures SawZero(ss, es, t, m) ==> SawZero(ss, es, t, m + 1)
    ensures NeverWaited(ss, t, m) && !At(ss[m + 1], t).StopPoll? ==> NeverWaited(ss, t, m + 1)
    ensures EmptiedQueue(ss, es, t, m) ==> EmptiedQueue(ss, es, t, m + 1)
    ensures Zeroed(ss, es, t, m) ==> Zeroed(ss, es, t, m + 1)
  {
    if EmptiedQueue(ss, es, t, m) {
      var c :| 0 <= c < m && es[c].tid == t && ss[c].queue == [] && ss[c + 1].drained;
      assert es[c].tid == t;
    }
    if Zeroed(ss, es, t, m) {
      var c :| 0 <= c < m && es[c].tid == t && ss[c + 1].drained && ss[c + 1].pending == 0;
      assert es[c].tid == t;
    }
    if WonStop(ss, es, t, m) {
      var a :| 0 <= a < m && es[a].tid == t && !ss[a].stopping && ss[a + 1].stopping;
      assert es[a].tid == t;
    }
    if WokeAll(ss, es, t, m) {
      var d :| 0 <= d < m && es[d].tid == t && NoSleeper(ss[d + 1]);
      assert es[d].tid == t;
    }
    if SawZero(ss, es, t, m) {
      var b :| 0 <= b < m && es[b].tid == t && At(ss[b], t).StopPoll? && ss[b].pending == 0;
      assert es[b].tid == t;
    }
  }

  /** An event of another thread leaves a call where it stands. */
  lemma SubmitWaits(ss: seq<State>, es: seq<Event>, t: Tid, m: nat)
    requires |ss| == |es| + 1 && m < |es| && SubmitStands(ss, es, t, m)
    requires es[m].tid != t && At(ss[m + 1], t) == At(ss[m], t)
    ensures SubmitStands(ss, es, t, m + 1)
  {
    if Enqueued(ss, es, t, m) {
      EnqueuedOn(ss, es, t, m);
    }
    if CountedIn(ss, es, t, m) {
      CountedOn(ss, es, t, m);
    }
    if WokeOne(ss, es, t, m) {
      var d :| 0 <= d < m && es[d].tid == t && At(ss[d], t).SNotify? &&
               (At(ss[d], es[d].pick).WAsleep? ==> At(ss[d + 1], es[d].pick).WRelock?);
      assert es[d].tid == t;
    }
  }

  lemma SubmitOn(ss: seq<State>, es: seq<Event>, t: Tid, m: nat)
    requires |ss| == |es| + 1 && m < |es| && SubmitStands(ss, es, t, m)
    requires es[m].tid == t && SubmitEffect(ss[m], t, ss[m + 1])
    ensures SubmitStands(ss, es, t, m + 1)
  {
    match At(ss[m], t)
    case SPush => assert EnqueuedAt(ss, es, t, m + 1, m);
    case SAdd =>
      EnqueuedOn(ss, es, t, m);
      assert CountedAt(ss, es, t, m + 1, m);
    case SUnlock =>
      EnqueuedOn(ss, es, t, m);
      CountedOn(ss, es, t, m);
    case SLock =>
  }

  lemma SubmitEnds(ss: seq<State>, es: seq<Event>, t: Tid, m: nat)
    requires |ss| == |es| + 1 && m < |es| && SubmitStands(ss, es, t, m) && es[m].tid == t && At(ss[m], t).SNotify?
    requires OnlyPcs(ss[m], ss[m + 1]) && At(ss[m + 1], t).Idle?
    requires At(ss[m], es[m].pick).WAsleep? ==> At(ss[m + 1], es[m].pick).WRelock?
    ensures SubmitStands(ss, es, t, m + 1)
  {
    EnqueuedOn(ss, es, t, m);
    CountedOn(ss, es, t, m);
    assert WokeOne(ss, es, t, m + 1);
  }

  lemma PauseWaits(ss: seq<State>, es: seq<Event>, t: Tid, m: nat, value: bool)
    requires |ss| == |es| + 1 && m < |es| && PauseStands(ss, es, t, m, value) && !At(ss[m], t).Idle?
    requires es[m].tid != t && At(ss[m + 1], t) == At(ss[m], t)
    ensures PauseStands(ss, es, t, m + 1, value)
  {
    if PausedTo(ss, es, t, m, value) {
      PausedOn(ss, es, t, m, value);
    }
  }

  lemma PauseOn(ss: seq<State>, es: seq<Event>, t: Tid, m: nat, value: bool)
    requires |ss| == |es| + 1 && m < |es| && PauseStands(ss, es, t, m, value) && !At(ss[m], t).Idle?
    requires es[m].tid == t && PauseEffect(ss[m], t, ss[m + 1])
    ensures PauseStands(ss, es, t, m + 1, value)
  {
    if At(ss[m], t).PauseStore? {
      assert PausedAt(ss, es, t, m + 1, m, value);
    } else {
      PausedOn(ss, es, t, m, value);
      assert WokeAll(ss, es, t, m + 1);
    }
  }

  lemma StopWaits(ss: seq<State>, es: seq<Event>, t: Tid, m: nat, wait: bool)
    requires |ss| == |es| + 1 && m < |es| && StopStands(ss, es, t, m, wait) && !At(ss[m], t).Idle?
    requires es[m].tid != t && At(ss[m + 1], t) == At(ss[m], t)
    ensures StopStands(ss, es, t, m + 1, wait)
  {
    StopFactsOn(ss, es, t, m);
  }

  lemma StopSets(ss: seq<State>, es: seq<Event>, t: Tid, m: nat, wait: bool)
    requires |ss| == |es| + 1 && m < |es| && StopStands(ss, es, t, m, wait) && At(ss[m], t).StopExchange?
    requires es[m].tid == t && StopEffect(ss[m], t, ss[m + 1])
    ensures StopStands(ss, es, t, m + 1, wait)
  {
    if ss[m].stopping {
      assert SawStop(ss, es, t, m + 1);
    } else {
      StopFactsOn(ss, es, t, m);
      assert WonStop(ss, es, t, m + 1);
    }
  }

  lemma StopOn(ss: seq<State>, es: seq<Event>, t: Tid, m: nat, wait: bool)
    requires |ss| == |es| + 1 && m < |es| && StopStands(ss, es, t, m, wait) && !At(ss[m], t).Idle?
    requires !At(ss[m], t).StopExchange? && es[m].tid == t && StopEffect(ss[m], t, ss[m + 1])
    ensures StopStands(ss, es, t, m + 1, wait)
  {
    StopFactsOn(ss, es, t, m);
    if At(ss[m], t).StopNotify? {
      assert WokeAll(ss, es, t, m + 1);
    } else if At(ss[m], t).StopPoll? && ss[m].pending == 0 {
      assert SawZero(ss, es, t, m + 1);
    } else if At(ss[m], t).StopDrain? && ss[m].queue == [] {
      assert EmptiedQueue(ss, es, t, m + 1);
    } else if At(ss[m], t).StopZero? {
      assert Zeroed(ss, es, t, m + 1);
    }
  }

  // ---------- the whole call ----------

  lemma StandsAside(ss: seq<State>, es: seq<Event>, t: Tid, m: nat)
    requires |ss| == |es| + 1 && 0 < m < |es| && Stands(ss, es, t, m) && !At(ss[m], t).Idle?
    requires es[m].tid != t && At(ss[m + 1], t) == At(ss[m], t)
    ensures Stands(ss, es, t, m + 1)
  {
    match es[0].call
    case CallSubmit => SubmitWaits(ss, es, t, m);
    case CallPause => PauseWaits(ss, es, t, m, true);
    case CallResume => PauseWaits(ss, es, t, m, false);
    case CallStop(wait) => StopWaits(ss, es, t, m, wait);
  }

  lemma StandsOn(ss: seq<State>, es: seq<Event>, t: Tid, m: nat)
    requires |ss| == |es| + 1 && 0 < m < |es| && Stands(ss, es, t, m) && !At(ss[m], t).Idle?
    requires es[m].tid == t && t >= ss[m].workers && Inv(ss[m]) && ss[m + 1] == Step(ss[m], es[m])
    ensures Stands(ss, es, t, m + 1)
  {
    var pc := At(ss[m], t);
    match es[0].call
    case CallSubmit =>
      if pc.SNotify? {
        NotifyActs(ss[m], es[m]);
        SubmitEnds(ss, es, t, m);
      } else {
        SubmitActs(ss[m], es[m]);
        SubmitOn(ss, es, t, m);
      }
    case CallPause =>
      PauseActs(ss[m], es[m]);
      PauseOn(ss, es, t, m, true);
    case CallResume =>
      PauseActs(ss[m], es[m]);
      PauseOn(ss, es, t, m, false);
    case CallStop(wait) =>
      if pc.StopExchange? || pc.StopNotify? || pc.StopPoll? {
        StopActs(ss[m], es[m]);
      } else {
        JoinActs(ss[m], es[m]);
      }
      if pc.StopExchange? {
        StopSets(ss, es, t, m, wait);
      } else {
        StopOn(ss, es, t, m, wait);
      }
  }

  lemma Begins(ss: seq<State>, es: seq<Event>, t: Tid)
    requires OneCall(ss, es, t)
    ensures Stands(ss, es, t, 1)
  {
    assert ss[1] == Goto(ss[0], t, Invoke(es[0].call));
  }

  lemma StandsAfterEvent(ss: seq<State>, es: seq<Event>, t: Tid, m: nat)
    requires OneCall(ss, es, t) && 0 < m < |es| && Stands(ss, es, t, m)
    ensures Stands(ss, es, t, m + 1)
  {
    TraceInv(ss, es, m);
    if es[m].tid == t {
      StandsOn(ss, es, t, m);
    } else {
      OtherMoves(ss[m], es[m], t);
      StandsAside(ss, es, t, m);
    }
  }

  lemma {:induction false} StandsUpTo(ss: seq<State>, es: seq<Event>, t: Tid, m: nat)
    requires OneCall(ss, es, t) && 0 < m <= |es|
    ensures Stands(ss, es, t, m)
    decreases m
  {
    if m == 1 {
      Begins(ss, es, t);
    } else {
      StandsUpTo(ss, es, t, m - 1);
      StandsAfterEvent(ss, es, t, m - 1);
    }
  }

  /**
   In every run a call that has returned did what it was asked.  `Submit` appended one task, counted it once and woke
   the sleeper it was given, if any.  `Pause` and `Resume` wrote the flag once, and `Resume` then woke everybody.
   `Stop` found the flag set and did nothing, or it set it, woke everybody, saw the pending count at zero if asked
   to wait and never looked at it otherwise, and when every worker was gone it emptied the queue and reset the count.
   */
  lemma EveryCallDoesItsDuty(ss: seq<State>, es: seq<Event>, t: Tid)
    requires OneCall(ss, es, t) && At(ss[|es|], t).Idle?
    ensures var m := |es|;
            match es[0].call
            case CallSubmit =>
              FlagsQuiet(ss, es, t, 0, m) && Enqueued(ss, es, t, m) && CountedIn(ss, es, t, m) && WokeOne(ss, es, t, m)
            case CallPause =>
              QueueQuiet(ss, es, t, 0, m) && PendingQuiet(ss, es, t, 0, m) && PausedTo(ss, es, t, m, true)
            case CallResume =>
              && QueueQuiet(ss, es, t, 0, m) && PendingQuiet(ss, es, t, 0, m)
              && PausedTo(ss, es, t, m, false) && WokeAll(ss, es, t, m)
            case CallStop(wait) =>
              || (SawStop(ss, es, t, m) && Quiet(ss, es, t, m))
              || (&& WonStop(ss, es, t, m) && WokeAll(ss, es, t, m)
                  && (if wait then SawZero(ss, es, t, m) else NeverWaited(ss, t, m))
                  && ss[m].drained && AllExited(ss[m], ss[m].workers)
                  && EmptiedQueue(ss, es, t, m) && Zeroed(ss, es, t, m))
  {
    StandsUpTo(ss, es, t, |es|);
    TraceInv(ss, es, |es|);
  }
}
