/** Every call of `Wait` and `WaitFor`, from the arrival that began it. */
module BarrierCalls {
  import opened Words
  import opened Prelude
  import opened BarrierModel

  /** `ss` are the states that the schedule `es` goes through. */
  ghost predicate Trace(ss: seq<State>, es: seq<Event>) {
    && |ss| == |es| + 1
    && forall n {:trigger es[n]} | 0 <= n < |es| :: ss[n + 1] == Step(ss[n], es[n])
  }

  lemma TraceSnoc(ss: seq<State>, es: seq<Event>, e: Event, s': State)
    requires Trace(ss, es) && s' == Step(ss[|es|], e)
    ensures Trace(ss + [s'], es + [e])
  {
    var ss', es' := ss + [s'], es + [e];
    forall n | 0 <= n < |es'| ensures ss'[n + 1] == Step(ss'[n], es'[n]) {
      if n < |es| {
        assert ss'[n + 1] == ss[n + 1] && ss'[n] == ss[n] && es'[n] == es[n];
      }
    }
  }

  lemma RunLast(s: State, es: seq<Event>, k: nat)
    requires |es| == k + 1
    ensures Run(s, es) == Step(Run(s, es[..k]), es[k]) && es == es[..k] + [es[k]]
  {
  }

  lemma {:induction false} EveryRunHasATrace(s: State, es: seq<Event>) returns (ss: seq<State>)
    ensures Trace(ss, es) && ss[0] == s && ss[|es|] == Run(s, es)
    decreases |es|
  {
    if es == [] {
      ss := [s];
    } else {
      var k := |es| - 1;
      var before := EveryRunHasATrace(s, es[..k]);
      var s' := Run(s, es);
      RunLast(s, es, k);
      TraceSnoc(before, es[..k], es[k], s');
      ss := before + [s'];
    }
  }

  lemma {:induction false} TraceInv(ss: seq<State>, es: seq<Event>, n: nat)
    requires Trace(ss, es) && Inv(ss[0]) && n <= |es|
    ensures Inv(ss[n])
    decreases n
  {
    if n == 0 {
    } else {
      TraceInv(ss, es, n - 1);
      StepInv(ss[n - 1], es[n - 1]);
    }
  }

  predicate InCall(pc: Pc) {
    !pc.Outside? && !pc.Left?
  }

  /** The first event is an arrival of `t`, and its call has not ended before the last one. */
  ghost predicate OneCall(ss: seq<State>, es: seq<Event>, t: Tid) {
    && Trace(ss, es) && Inv(ss[0])
    && es != [] && es[0].tid == t && es[0].kind.Act? && !InCall(At(ss[0], t))
    && forall n | 0 < n < |es| :: InCall(At(ss[n], t))
  }

  /** The timeout of the call ran out while it slept. */
  ghost predicate RanOut(ss: seq<State>, es: seq<Event>, t: Tid, m: nat)
    requires Trace(ss, es) && m <= |es|
  {
    exists n {:trigger es[n]} ::
      0 <= n < m && es[n] == Event(t, Timeout) && At(ss[n], t).Sleeping? && At(ss[n], t).timed
  }

  /** Where the call stands after `m` events; it belongs to the generation it arrived in. */
  ghost predicate Stands(ss: seq<State>, es: seq<Event>, t: Tid, m: nat)
    requires Trace(ss, es) && m <= |es| && es != [] && es[0].kind.Act?
  {
    var g, timed := ss[0].generation, es[0].kind.timed;
    match At(ss[m], t)
    case Sleeping(h, d) => h == g && d == timed && !RanOut(ss, es, t, m)
    case Woken(h, d) => h == g && d == timed && !RanOut(ss, es, t, m)
    case TimedOut(h) => h == g && timed && RanOut(ss, es, t, m)
    case Left(h, ok) =>
      && h == g && (ok <==> !RanOut(ss, es, t, m)) && (ok ==> ss[m].generation > g) && (!ok ==> timed)
    case _ => false
  }

  /** The steps of others do not end a call, and only the end of its generation moves a sleeper. */
  lemma OtherMoves(s: State, e: Event, t: Tid)
    requires e.tid != t && InCall(At(s, t))
    ensures At(Step(s, e), t) == At(s, t) || At(Step(s, e), t) == Wake(At(s, t))
  {
  }

  lemma CallActs(s: State, e: Event)
    requires InCall(At(s, e.tid))
    ensures Step(s, e).generation == s.generation
    ensures var pc, pc', timeout := At(s, e.tid), At(Step(s, e), e.tid), e.kind.Timeout?;
            match pc'
            case Sleeping(g, timed) =>
              (pc == pc' && !(timeout && timed)) || (pc == Woken(g, timed) && s.generation == g)
            case Woken(g, timed) => pc == pc' || (pc == Sleeping(g, timed) && !timeout)
            case TimedOut(g) => pc == pc' || (pc == Sleeping(g, true) && timeout)
            case Left(g, ok) => if ok then pc.Woken? && pc.gen == g && s.generation != g else pc == TimedOut(g)
            case Outside => false
  {
  }

  lemma RanOutOn(ss: seq<State>, es: seq<Event>, t: Tid, m: nat)
    requires Trace(ss, es) && m < |es|
    ensures RanOut(ss, es, t, m + 1) <==>
            || RanOut(ss, es, t, m)
            || (es[m] == Event(t, Timeout) && At(ss[m], t).Sleeping? && At(ss[m], t).timed)
  {
    if es[m] == Event(t, Timeout) && At(ss[m], t).Sleeping? && At(ss[m], t).timed {
      assert RanOut(ss, es, t, m + 1);
    } else if RanOut(ss, es, t, m) {
      var n :| 0 <= n < m && es[n] == Event(t, Timeout) && At(ss[n], t).Sleeping? && At(ss[n], t).timed;
      assert RanOut(ss, es, t, m + 1);
    }
  }

  lemma StandsOn(ss: seq<State>, es: seq<Event>, t: Tid, m: nat)
    requires OneCall(ss, es, t) && 0 < m < |es| && Stands(ss, es, t, m)
    ensures Stands(ss, es, t, m + 1)
  {
    RanOutOn(ss, es, t, m);
    TraceInv(ss, es, m);
    if es[m].tid != t {
      OtherMoves(ss[m], es[m], t);
    } else {
      CallActs(ss[m], es[m]);
    }
  }

  lemma Begins(ss: seq<State>, es: seq<Event>, t: Tid)
    requires OneCall(ss, es, t)
    ensures Stands(ss, es, t, 1)
  {
    assert !RanOut(ss, es, t, 0);
    RanOutOn(ss, es, t, 0);
  }

  lemma {:induction false} StandsUpTo(ss: seq<State>, es: seq<Event>, t: Tid, m: nat)
    requires OneCall(ss, es, t) && 0 < m <= |es|
    ensures Stands(ss, es, t, m)
    decreases m
  {
    if m == 1 {
      Begins(ss, es, t);
    } else {
      StandsUpTo(ss, es, t, m - 1);
      StandsOn(ss, es, t, m - 1);
    }
  }

  /**
   In every run a call that returns belongs to the generation it arrived in.  It reports failure if and only if its
   timeout ran out, which happens to `WaitFor` alone, and otherwise that generation is over.
   */
  lemma EveryAnswerFitsItsCall(ss: seq<State>, es: seq<Event>, t: Tid)
    requires OneCall(ss, es, t) && At(ss[|es|], t).Left?
    ensures var answer := At(ss[|es|], t);
            && answer.gen == ss[0].generation
            && (answer.ok <==> !RanOut(ss, es, t, |es|))
            && (answer.ok ==> ss[|es|].generation > answer.gen)
            && (!answer.ok ==> es[0].kind.timed)
  {
    StandsUpTo(ss, es, t, |es|);
  }

  /** The call keeps its kind while it sleeps, so a timed sleeper is one that asked for it, and can time out. */
  lemma TimeoutIsHeeded(ss: seq<State>, es: seq<Event>, t: Tid)
    requires OneCall(ss, es, t) && At(ss[|es|], t).Sleeping?
    ensures At(ss[|es|], t) == Sleeping(ss[0].generation, es[0].kind.timed)
    ensures At(Step(ss[|es|], Event(t, Timeout)), t) ==
            if es[0].kind.timed then TimedOut(ss[0].generation) else At(ss[|es|], t)
  {
    StandsUpTo(ss, es, t, |es|);
  }
}
