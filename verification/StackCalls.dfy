/** Every call of the stack, from the event that began it: the operation it logs and the answer it gives. */
module StackCalls {
  import opened Prelude
  import opened Stack
  import opened StackProof
  import opened StackTheorems

  /** `ss` are the states that the schedule `es` goes through. */
  ghost predicate Trace<T>(ss: seq<State<T>>, es: seq<Event<T>>) {
    && |ss| == |es| + 1
    && forall n {:trigger es[n]} | 0 <= n < |es| :: ss[n + 1] == Step(ss[n], es[n])
  }

  lemma TraceSnoc<T>(ss: seq<State<T>>, es: seq<Event<T>>, e: Event<T>, s': State<T>)
    requires Trace(ss, es) && s' == Step(ss[|es|], e)
    ensures Trace(ss + [s'], es + [e])
  {
    var ss', es' := ss + [s'], es + [e];
    forall n | 0 <= n < |es'| ensures ss'[n + 1] == Step(ss'[n], es'[n]) {
      if n < |es| {
        assert ss'[n + 1] == ss[n + 1] && ss'[n] == ss[n] && es'[n] == es[n];
      }
    }
  }

  lemma RunLast<T>(s: State<T>, es: seq<Event<T>>, k: nat)
    requires |es| == k + 1
    ensures Run(s, es) == Step(Run(s, es[..k]), es[k]) && es == es[..k] + [es[k]]
  {
  }

  lemma {:induction false} EveryRunHasATrace<T>(s: State<T>, es: seq<Event<T>>) returns (ss: seq<State<T>>)
    ensures Trace(ss, es) && ss[0] == s && ss[|es|] == Run(s, es)
    decreases |es|
  {
    if es == [] {
      ss := [s];
    } else {
      var k := |es| - 1;
      var before := EveryRunHasATrace(s, es[..k]);
      var s' := Run(s, es);
      RunLast(s, es, k);
      TraceSnoc(before, es[..k], es[k], s');
      ss := before + [s'];
    }
  }

  lemma {:induction false} TraceInv<T>(ss: seq<State<T>>, es: seq<Event<T>>, n: nat)
    requires Trace(ss, es) && Inv(ss[0]) && n <= |es|
    ensures Inv(ss[n])
    decreases n
  {
    if n == 0 {
    } else {
      TraceInv(ss, es, n - 1);
      StepInv(ss[n - 1], es[n - 1]);
    }
  }

  /** The first event begins a call of `t`, and the call has not ended before the last one. */
  ghost predicate OneCall<T>(ss: seq<State<T>>, es: seq<Event<T>>, t: Tid) {
    && Trace(ss, es) && Inv(ss[0])
    && es != [] && es[0].tid == t && !InCall(At(ss[0], t))
    && forall n | 0 < n < |es| :: InCall(At(ss[n], t))
  }

  /** The point is one of the operation asked for, with its item. */
  predicate OnCourse<T(==)>(pc: Pc<T>, call: Call<T>) {
    match (call, pc)
    case (CallPush(x), PushAlloc(y)) => y == x
    case (CallPush(x), PushLoad(y, _)) => y == x
    case (CallPush(x), PushLink(y, _, _)) => y == x
    case (CallPush(x), PushCas(y, _, _)) => y == x
    case (CallPush(x), Returned(Pushed(y), _)) => y == x
    case (CallPop, PopLoad) => true
    case (CallPop, PopReadNext(_)) => true
    case (CallPop, PopCas(_, _)) => true
    case (CallPop, PopTake(_, _)) => true
    case (CallPop, Returned(outcome, _)) => !outcome.Pushed?
    case _ => false
  }

  lemma BeginsOnCourse<T>(s: State<T>, e: Event<T>)
    requires !InCall(At(s, e.tid))
    ensures OnCourse(At(Step(s, e), e.tid), e.call) && Began(Step(s, e), e.tid) == |s.log|
  {
  }

  lemma OtherMoves<T>(s: State<T>, e: Event<T>, t: Tid)
    requires e.tid != t
    ensures At(Step(s, e), t) == At(s, t)
  {
  }

  lemma PushOnCourse<T>(s: State<T>, e: Event<T>, x: T)
    requires InCall(At(s, e.tid)) && OnCourse(At(s, e.tid), CallPush(x))
    ensures OnCourse(At(Step(s, e), e.tid), CallPush(x))
  {
    match At(s, e.tid)
    case PushAlloc(_) =>
    case PushLoad(_, _) =>
    case PushLink(_, _, _) =>
    case PushCas(_, _, _) =>
  }

  lemma PopOnCourse<T>(s: State<T>, e: Event<T>)
    requires InCall(At(s, e.tid)) && OnCourse(At(s, e.tid), CallPop)
    ensures OnCourse(At(Step(s, e), e.tid), CallPop)
  {
    match At(s, e.tid)
    case PopLoad =>
    case PopReadNext(_) =>
    case PopCas(_, _) =>
    case PopTake(_, _) =>
  }

  lemma StaysOnCourse<T>(s: State<T>, e: Event<T>, t: Tid, call: Call<T>)
    requires InCall(At(s, t)) && OnCourse(At(s, t), call)
    ensures OnCourse(At(Step(s, e), t), call)
  {
    if e.tid != t {
      OtherMoves(s, e, t);
    } else {
      match call
      case CallPush(x) => PushOnCourse(s, e, x);
      case CallPop => PopOnCourse(s, e);
    }
  }

  lemma KeepsItsBeginning<T>(s: State<T>, e: Event<T>, t: Tid)
    requires InCall(At(s, t))
    ensures Began(Step(s, e), t) == Began(s, t)
  {
  }

  lemma {:induction false} StandsUpTo<T>(ss: seq<State<T>>, es: seq<Event<T>>, t: Tid, m: nat)
    requires OneCall(ss, es, t) && 0 < m <= |es|
    ensures OnCourse(At(ss[m], t), es[0].call) && Began(ss[m], t) == |ss[0].log|
    decreases m
  {
    if m == 1 {
      BeginsOnCourse(ss[0], es[0]);
    } else {
      StandsUpTo(ss, es, t, m - 1);
      StaysOnCourse(ss[m - 1], es[m - 1], t, es[0].call);
      KeepsItsBeginning(ss[m - 1], es[m - 1], t);
    }
  }

  /** `t` logged this operation since the log had `from` entries, and no other. */
  ghost predicate LoggedOnly<T>(log: seq<Op<T>>, from: nat, t: Tid, op: Op<T>) {
    exists k :: from <= k < |log| && log[k] == op && forall j | from <= j < |log| && j != k :: log[j].tid != t
  }

  /**
   In every run every call answers what it was asked: a Push of `x` logs the pushing of `x`, a Pop that returns an
   item logs the popping of that item, a Pop that fails logs an empty stack; each logs that once, while it runs, and
   nothing else.
   */
  lemma EveryAnswerFitsItsCall<T>(ss: seq<State<T>>, es: seq<Event<T>>, t: Tid)
    requires OneCall(ss, es, t) && At(ss[|es|], t).Returned?
    ensures var log, from := ss[|es|].log, |ss[0].log|;
            match (es[0].call, At(ss[|es|], t).outcome)
            case (CallPush(x), Pushed(y)) => y == x && LoggedOnly(log, from, t, DidPush(t, x))
            case (CallPop, Got(got)) => got.Some? && LoggedOnly(log, from, t, DidPop(t, got))
            case (CallPop, WasEmpty) => LoggedOnly(log, from, t, FoundEmpty(t))
            case _ => false
  {
    StandsUpTo(ss, es, t, |es|);
    TraceInv(ss, es, |es|);
    assert ThreadOk(ss[|es|], t);
    assert ss[|es|].log[At(ss[|es|], t).entry].tid == t;
  }
}
