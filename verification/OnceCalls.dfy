/** What throwing and finishing callables do to the flag, step by step and over whole calls. */
module OnceCalls {
  import opened Prelude
  import opened OnceFlagModel

  function Top(s: State, t: Tid): Option<Frame> {
    var fs := Frames(s, t);
    if fs == [] then None else Some(fs[|fs| - 1])
  }

  /** The step is the one in which a running callable does what `choice` says. */
  predicate Ends(s: State, e: Event, choice: Choice) {
    Top(s, e.tid) == Some(Running) && e.choice == choice
  }

  // ---------- single steps ----------

  /** Only a callable that finishes counts as a completion, and only the store after it sets the flag. */
  lemma CompletionsAreFinishes(s: State, e: Event)
    ensures Step(s, e).completions == s.completions + if Ends(s, e, Finish) then 1 else 0
    ensures Step(s, e).called == (s.called || Top(s, e.tid) == Some(Store))
  {
  }

  /** A callable that throws goes straight to giving the lock back. */
  lemma ThrowUnlocks(s: State, e: Event)
    requires Ends(s, e, Throw)
    ensures Top(Step(s, e), e.tid) == Some(Unlock(true))
    ensures Step(s, e).called == s.called && Step(s, e).completions == s.completions
    ensures Step(s, e).normalReturns == s.normalReturns && Step(s, e).owner == s.owner
  {
  }

  // ---------- if every callable throws ----------

  ghost predicate NobodyFinished(s: State) {
    && !s.called && s.completions == 0 && s.normalReturns == 0
    && forall t, k | 0 <= k < |Frames(s, t)| :: Frames(s, t)[k] != Store && Frames(s, t)[k] != Unlock(false)
  }

  lemma ThrowStep(s: State, e: Event)
    requires NobodyFinished(s) && e.choice != Finish
    ensures NobodyFinished(Step(s, e))
  {
    var s', fs := Step(s, e), Frames(s, e.tid);
    forall t, k | 0 <= k < |Frames(s', t)| ensures Frames(s', t)[k] != Store && Frames(s', t)[k] != Unlock(false) {
      if t != e.tid {
        assert Frames(s', t) == Frames(s, t);
      } else if k < |fs| {
        assert fs[k] != Store && fs[k] != Unlock(false);
      }
    }
  }

  /** However often any threads call: if no callable finishes, the flag stays unset and no call returns normally. */
  lemma {:induction false} ThrowingCallsChangeNothing(reentrant: bool, es: seq<Event>)
    requires forall n | 0 <= n < |es| :: es[n].choice != Finish
    ensures NobodyFinished(Run(Init(reentrant), es))
    decreases |es|
  {
    if es == [] {
    } else {
      ThrowingCallsChangeNothing(reentrant, es[..|es| - 1]);
      ThrowStep(Run(Init(reentrant), es[..|es| - 1]), es[|es| - 1]);
    }
  }

  // ---------- whole calls, without re-entry ----------

  /** `ss` are the states that the schedule `es` goes through. */
  ghost predicate Trace(ss: seq<State>, es: seq<Event>) {
    && |ss| == |es| + 1
    && forall n {:trigger es[n]} | 0 <= n < |es| :: ss[n + 1] == Step(ss[n], es[n])
  }

  lemma TraceSnoc(ss: seq<State>, es: seq<Event>, e: Event, s': State)
    requires Trace(ss, es) && s' == Step(ss[|es|], e)
    ensures Trace(ss + [s'], es + [e])
  {
    var ss', es' := ss + [s'], es + [e];
    forall n | 0 <= n < |es'| ensures ss'[n + 1] == Step(ss'[n], es'[n]) {
      if n < |es| {
        assert ss'[n + 1] == ss[n + 1] && ss'[n] == ss[n] && es'[n] == es[n];
      }
    }
  }

  lemma RunLast(s: State, es: seq<Event>, k: nat)
    requires |es| == k + 1
    ensures Run(s, es) == Step(Run(s, es[..k]), es[k]) && es == es[..k] + [es[k]]
  {
  }

  lemma {:induction false} EveryRunHasATrace(s: State, es: seq<Event>) returns (ss: seq<State>)
    ensures Trace(ss, es) && ss[0] == s && ss[|es|] == Run(s, es)
    decreases |es|
  {
    if es == [] {
      ss := [s];
    } else {
      var k := |es| - 1;
      var before := EveryRunHasATrace(s, es[..k]);
      var s' := Run(s, es);
      RunLast(s, es, k);
      TraceSnoc(before, es[..k], es[k], s');
      ss := before + [s'];
    }
  }

  lemma {:induction false} TraceInv(ss: seq<State>, es: seq<Event>, n: nat)
    requires Trace(ss, es) && Inv(ss[0]) && n <= |es|
    ensures Inv(ss[n])
    decreases n
  {
    if n == 0 {
    } else {
      TraceInv(ss, es, n - 1);
      StepInv(ss[n - 1], es[n - 1]);
    }
  }

  /** The first event begins a call of `t`, and the call has not ended before the last one. */
  ghost predicate OneCall(ss: seq<State>, es: seq<Event>, t: Tid) {
    && Trace(ss, es) && Inv(ss[0])
    && es != [] && es[0].tid == t && Frames(ss[0], t) == []
    && forall n | 0 < n < |es| :: Frames(ss[n], t) != []
  }

  /** The call changed neither the flag nor the number of completions and normal returns from `a` up to `b`. */
  ghost predicate Quiet(ss: seq<State>, es: seq<Event>, t: Tid, a: nat, b: nat)
    requires Trace(ss, es) && b <= |es|
  {
    forall n {:trigger es[n]} | a <= n < b && es[n].tid == t ::
      && ss[n + 1].called == ss[n].called && ss[n + 1].completions == ss[n].completions
      && ss[n + 1].normalReturns == ss[n].normalReturns
  }

  /** The call's callable ended in this way, in step `n`. */
  ghost predicate EndedAt(ss: seq<State>, es: seq<Event>, t: Tid, m: nat, n: nat, choice: Choice)
    requires Trace(ss, es) && m <= |es|
  {
    n < m && es[n].tid == t && Ends(ss[n], es[n], choice)
  }

  ghost predicate Ended(ss: seq<State>, es: seq<Event>, t: Tid, m: nat, choice: Choice)
    requires Trace(ss, es) && m <= |es|
  {
    exists n: nat :: EndedAt(ss, es, t, m, n, choice)
  }

  ghost predicate SawFlag(ss: seq<State>, es: seq<Event>, t: Tid, m: nat)
    requires Trace(ss, es) && m <= |es|
  {
    exists n {:trigger es[n]} :: 0 <= n < m && es[n].tid == t && ss[n].called
  }

  /** Where the call stands after `m` events. */
  ghost predicate Stands(ss: seq<State>, es: seq<Event>, t: Tid, m: nat)
    requires Trace(ss, es) && m <= |es|
  {
    var finished, threw := Ended(ss, es, t, m, Finish), Ended(ss, es, t, m, Throw);
    match Top(ss[m], t)
    case Some(FastLoad) => !finished && !threw && Quiet(ss, es, t, 0, m)
    case Some(WantLock) => !finished && !threw && Quiet(ss, es, t, 0, m)
    case Some(Check) => !finished && !threw && Quiet(ss, es, t, 0, m)
    case Some(Running) => !finished && !threw && Quiet(ss, es, t, 0, m)
    case Some(Store) => finished && !threw
    case Some(Unlock(true)) => threw && !finished && Quiet(ss, es, t, 0, m)
    case Some(Unlock(false)) => !threw && (finished || (SawFlag(ss, es, t, m) && Quiet(ss, es, t, 0, m)))
    case None => true
  }

  lemma OtherMoves(s: State, e: Event, t: Tid)
    requires e.tid != t
    ensures Frames(Step(s, e), t) == Frames(s, t)
  {
  }

  lemma EndedOn(ss: seq<State>, es: seq<Event>, t: Tid, m: nat, choice: Choice)
    requires Trace(ss, es) && m < |es|
    ensures Ended(ss, es, t, m + 1, choice) <==>
            Ended(ss, es, t, m, choice) || (es[m].tid == t && Ends(ss[m], es[m], choice))
  {
    if es[m].tid == t && Ends(ss[m], es[m], choice) {
      assert EndedAt(ss, es, t, m + 1, m, choice);
    } else if Ended(ss, es, t, m, choice) {
      var n: nat :| EndedAt(ss, es, t, m, n, choice);
      assert EndedAt(ss, es, t, m + 1, n, choice);
    } else if Ended(ss, es, t, m + 1, choice) {
      var n: nat :| EndedAt(ss, es, t, m + 1, n, choice);
      assert EndedAt(ss, es, t, m, n, choice);
    }
  }

  /** Where a call's own step leads, while it does not return. */
  lemma CallActs(s: State, e: Event)
    requires Inv(s) && Frames(s, e.tid) != [] && Frames(Step(s, e), e.tid) != []
    ensures var top, top', s' := Top(s, e.tid), Top(Step(s, e), e.tid), Step(s, e);
            && s'.normalReturns == s.normalReturns
            && (s'.called != s.called ==> top == Some(Store))
            && match top.value
               case FastLoad => top' == Some(WantLock)
               case WantLock => top' == Some(WantLock) || top' == Some(Check)
               case Check => top' == Some(if s.called then Unlock(false) else Running)
               case Running =>
                 top' == Some(match e.choice case Finish => Store case Throw => Unlock(true) case CallAgain => Running)
               case Store => top' == Some(Unlock(false))
               case Unlock(_) => false
  {
    assert ThreadOk(s, e.tid);
    CompletionsAreFinishes(s, e);
  }

  /** How a call returns: at once if the flag was set, otherwise by giving back the lock. */
  lemma CallReturns(s: State, e: Event)
    requires Inv(s) && Frames(s, e.tid) != [] && Frames(Step(s, e), e.tid) == []
    ensures var top, s' := Top(s, e.tid).value, Step(s, e);
            && s'.called == s.called && s'.completions == s.completions
            && ((top == FastLoad && s.called) || top.Unlock?)
            && s'.normalReturns == s.normalReturns + if top == Unlock(true) then 0 else 1
  {
    assert ThreadOk(s, e.tid);
    CompletionsAreFinishes(s, e);
  }

  lemma QuietOn(ss: seq<State>, es: seq<Event>, t: Tid, m: nat)
    requires Trace(ss, es) && m < |es| && Quiet(ss, es, t, 0, m)
    requires es[m].tid == t ==>
               && ss[m + 1].called == ss[m].called && ss[m + 1].completions == ss[m].completions
               && ss[m + 1].normalReturns == ss[m].normalReturns
    ensures Quiet(ss, es, t, 0, m + 1)
  {
  }

  lemma SawFlagOn(ss: seq<State>, es: seq<Event>, t: Tid, m: nat)
    requires Trace(ss, es) && m < |es| && (SawFlag(ss, es, t, m) || (es[m].tid == t && ss[m].called))
    ensures SawFlag(ss, es, t, m + 1)
  {
    if SawFlag(ss, es, t, m) {
      var n :| 0 <= n < m && es[n].tid == t && ss[n].called;
      assert es[n].tid == t && ss[n].called;
    } else {
      assert es[m].tid == t && ss[m].called;
    }
  }

  lemma StandsAside(ss: seq<State>, es: seq<Event>, t: Tid, m: nat)
    requires OneCall(ss, es, t) && 0 < m < |es| && Stands(ss, es, t, m) && es[m].tid != t
    ensures Stands(ss, es, t, m + 1)
  {
    EndedOn(ss, es, t, m, Finish);
    EndedOn(ss, es, t, m, Throw);
    OtherMoves(ss[m], es[m], t);
    if Quiet(ss, es, t, 0, m) {
      QuietOn(ss, es, t, m);
    }
    if SawFlag(ss, es, t, m) {
      SawFlagOn(ss, es, t, m);
    }
  }

  lemma StandsBeforeRunning(ss: seq<State>, es: seq<Event>, t: Tid, m: nat)
    requires OneCall(ss, es, t) && 0 < m < |es| && Stands(ss, es, t, m) && es[m].tid == t && Frames(ss[m + 1], t) != []
    requires var top := Top(ss[m], t).value; top.FastLoad? || top.WantLock? || top.Check?
    ensures Stands(ss, es, t, m + 1)
  {
    TraceInv(ss, es, m);
    EndedOn(ss, es, t, m, Finish);
    EndedOn(ss, es, t, m, Throw);
    CallActs(ss[m], es[m]);
    CompletionsAreFinishes(ss[m], es[m]);
    QuietOn(ss, es, t, m);
    if ss[m].called {
      SawFlagOn(ss, es, t, m);
    }
  }

  lemma StandsAfterRunning(ss: seq<State>, es: seq<Event>, t: Tid, m: nat)
    requires OneCall(ss, es, t) && 0 < m < |es| && Stands(ss, es, t, m) && es[m].tid == t && Frames(ss[m + 1], t) != []
    requires var top := Top(ss[m], t).value; top.Running? || top.Store? || top.Unlock?
    ensures Stands(ss, es, t, m + 1)
  {
    TraceInv(ss, es, m);
    EndedOn(ss, es, t, m, Finish);
    EndedOn(ss, es, t, m, Throw);
    CallActs(ss[m], es[m]);
    CompletionsAreFinishes(ss[m], es[m]);
    if Top(ss[m], t) == Some(Running) && es[m].choice != Finish {
      QuietOn(ss, es, t, m);
    }
  }

  lemma StandsOn(ss: seq<State>, es: seq<Event>, t: Tid, m: nat)
    requires OneCall(ss, es, t) && 0 < m < |es| && Stands(ss, es, t, m) && Frames(ss[m + 1], t) != []
    ensures Stands(ss, es, t, m + 1)
  {
    if es[m].tid != t {
      StandsAside(ss, es, t, m);
    } else {
      var top := Top(ss[m], t).value;
      if top.FastLoad? || top.WantLock? || top.Check? {
        StandsBeforeRunning(ss, es, t, m);
      } else {
        StandsAfterRunning(ss, es, t, m);
      }
    }
  }

  lemma Begins(ss: seq<State>, es: seq<Event>, t: Tid)
    requires OneCall(ss, es, t)
    ensures Stands(ss, es, t, 1) && Frames(ss[1], t) != []
  {
    EndedOn(ss, es, t, 0, Finish);
    EndedOn(ss, es, t, 0, Throw);
  }

  lemma {:induction false} StandsUpTo(ss: seq<State>, es: seq<Event>, t: Tid, m: nat)
    requires OneCall(ss, es, t) && 0 < m <= |es| && Frames(ss[m], t) != []
    ensures Stands(ss, es, t, m)
    decreases m
  {
    if m == 1 {
      Begins(ss, es, t);
    } else {
      StandsUpTo(ss, es, t, m - 1);
      StandsOn(ss, es, t, m - 1);
    }
  }

  lemma LastEvent(ss: seq<State>, es: seq<Event>, t: Tid)
    requires OneCall(ss, es, t) && Frames(ss[|es|], t) == []
    ensures |es| > 1 && es[|es| - 1].tid == t && Frames(ss[|es| - 1], t) != [] && Stands(ss, es, t, |es| - 1)
  {
    Begins(ss, es, t);
    var k := |es| - 1;
    if k == 0 {
      assert false;
    } else {
      StandsUpTo(ss, es, t, k);
      if es[k].tid != t {
        OtherMoves(ss[k], es[k], t);
      }
    }
  }

  /**
   In every run a call that is over did one of three things.  Its callable threw: then it returned by the exception
   and left flag, completions and normal returns as they were.  Its callable finished: then the flag is set and it
   returned normally.  Or it ran no callable: then it saw the flag set, changed nothing, and returned normally.
   */
  lemma EveryCallEndsAsItsCallable(ss: seq<State>, es: seq<Event>, t: Tid)
    requires OneCall(ss, es, t) && Frames(ss[|es|], t) == []
    ensures |es| > 1
    ensures var k := |es| - 1;
            if Ended(ss, es, t, |es|, Throw) then
              Quiet(ss, es, t, 0, |es|) && !Ended(ss, es, t, |es|, Finish)
            else
              && ss[k + 1].normalReturns == ss[k].normalReturns + 1 && ss[k].called
              && (Ended(ss, es, t, |es|, Finish) || (SawFlag(ss, es, t, |es|) && Quiet(ss, es, t, 0, k)))
  {
    var k := |es| - 1;
    LastEvent(ss, es, t);
    TraceInv(ss, es, k);
    EndedOn(ss, es, t, k, Finish);
    EndedOn(ss, es, t, k, Throw);
    CallReturns(ss[k], es[k]);
    if Top(ss[k], t) == Some(Unlock(true)) {
      QuietOn(ss, es, t, k);
    } else if Top(ss[k], t) == Some(FastLoad) {
      SawFlagOn(ss, es, t, k);
    } else {
      assert ThreadOk(ss[k], t);
      if SawFlag(ss, es, t, k) {
        SawFlagOn(ss, es, t, k);
      }
    }
  }
}
