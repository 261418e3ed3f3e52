/** Every call on a shared state, from the event that began it: what it did, and what it may answer. */
module FutureCalls {
  import opened Prelude
  import opened FutureModel

  /** `ss` are the states that the schedule `es` goes through. */
  ghost predicate Trace<T>(ss: seq<State<T>>, es: seq<Event<T>>) {
    && |ss| == |es| + 1
    && forall n {:trigger es[n]} | 0 <= n < |es| :: ss[n + 1] == Step(ss[n], es[n])
  }

  lemma {:induction false} EveryRunHasATrace<T>(s: State<T>, es: seq<Event<T>>) returns (ss: seq<State<T>>)
    ensures Trace(ss, es) && ss[0] == s && ss[|es|] == Run(s, es)
    decreases |es|
  {
    if es == [] {
      ss := [s];
    } else {
      var before := EveryRunHasATrace(s, es[..|es| - 1]);
      ss := before + [Step(before[|es| - 1], es[|es| - 1])];
    }
  }

  lemma {:induction false} TraceInv<T>(ss: seq<State<T>>, es: seq<Event<T>>, n: nat)
    requires Trace(ss, es) && Inv(ss[0]) && n <= |es|
    ensures Inv(ss[n]) && ss[n].spurious == ss[0].spurious
    decreases n
  {
    if n == 0 {
    } else {
      TraceInv(ss, es, n - 1);
      StepInv(ss[n - 1], es[n - 1]);
    }
  }

  // ---------- what a ready state answers ----------

  /** A wait that is entered or woken when the outcome is there returns it at its next step, each in its own way. */
  lemma ReadyAnswers<T(!new)>(s: State<T>, t: Tid, call: Call<T>)
    requires s.outcome.Some? && (At(s, t).Entering? || At(s, t).Woken?)
    ensures var answer, o := At(Step(s, Event(t, Act(call))), t), s.outcome.value;
            match At(s, t).wait
            case Get => answer == Returned(Got(o))
            case Wait => answer == Returned(WaitDone)
            case TryGet => answer == Returned(if o.Value? then TryGot(Some(o.value)) else TryThrew(o.id))
            case WaitFor => answer == Returned(WaitForTrue)
  {
  }

  // ---------- one call ----------

  predicate InCall<T>(pc: Pc<T>) {
    !pc.Idle? && !pc.Returned?
  }

  /** The first event begins a call of `t`, and the call has not ended before the last one. */
  ghost predicate OneCall<T>(ss: seq<State<T>>, es: seq<Event<T>>, t: Tid) {
    && Trace(ss, es) && Inv(ss[0])
    && es != [] && es[0].tid == t && es[0].kind.Act? && !InCall(At(ss[0], t))
    && forall n | 0 < n < |es| :: InCall(At(ss[n], t))
  }

  /** The call left the outcome alone in all its steps from `a` up to `b`. */
  ghost predicate Quiet<T>(ss: seq<State<T>>, es: seq<Event<T>>, t: Tid, a: nat, b: nat)
    requires Trace(ss, es) && b <= |es|
  {
    forall n {:trigger es[n]} | a <= n < b && es[n].tid == t :: ss[n + 1].outcome == ss[n].outcome
  }

  /** The call set the outcome, to `o`, in one of its steps. */
  ghost predicate HasSet<T>(ss: seq<State<T>>, es: seq<Event<T>>, t: Tid, m: nat, o: Outcome<T>)
    requires Trace(ss, es) && m <= |es|
  {
    exists n {:trigger es[n]} :: 0 <= n < m && es[n].tid == t && ss[n].outcome == None && ss[n + 1].outcome == Some(o)
  }

  ghost predicate HasWokenAll<T>(ss: seq<State<T>>, es: seq<Event<T>>, t: Tid, m: nat)
    requires Trace(ss, es) && m <= |es|
  {
    exists n {:trigger es[n]} :: 0 <= n < m && es[n].tid == t && NoSleeper(ss[n + 1])
  }

  ghost predicate NoSleeper<T>(s: State<T>) {
    forall u :: !At(s, u).Sleeping?
  }

  ghost predicate SawOutcome<T>(ss: seq<State<T>>, es: seq<Event<T>>, t: Tid, m: nat)
    requires Trace(ss, es) && m <= |es|
  {
    exists n {:trigger es[n]} :: 0 <= n < m && es[n].tid == t && ss[n].outcome.Some?
  }

  /** The timeout of the call ran out while it slept. */
  ghost predicate RanOut<T>(ss: seq<State<T>>, es: seq<Event<T>>, t: Tid, m: nat)
    requires Trace(ss, es) && m <= |es|
  {
    exists n {:trigger es[n]} ::
      0 <= n < m && es[n] == Event(t, Timeout) && At(ss[n], t).Sleeping? && Timed(At(ss[n], t).wait)
  }

  /** The call was woken spuriously. */
  ghost predicate WokeSpuriously<T>(ss: seq<State<T>>, es: seq<Event<T>>, t: Tid, m: nat)
    requires Trace(ss, es) && m <= |es|
  {
    exists n {:trigger es[n]} :: 0 <= n < m && es[n] == Event(t, Spurious) && At(ss[n], t).Sleeping? && ss[n].spurious
  }

  /** Where setting the outcome to `o` stands after `m` events. */
  ghost predicate SetStands<T>(ss: seq<State<T>>, es: seq<Event<T>>, t: Tid, m: nat, o: Outcome<T>)
    requires Trace(ss, es) && m <= |es|
  {
    match At(ss[m], t)
    case Setting(p) => p == o && Quiet(ss, es, t, 0, m)
    case MustNotify => HasSet(ss, es, t, m, o)
    case Returned(SetDone) => HasSet(ss, es, t, m, o) && HasWokenAll(ss, es, t, m)
    case Returned(AlreadySatisfied) => Quiet(ss, es, t, 0, m) && SawOutcome(ss, es, t, m)
    case _ => false
  }

  /** What a wait may answer, by the outcome at that time, a spurious wakeup, and its timeout having run out. */
  ghost predicate WaitAnswer<T>(w: Wait, r: Result<T>, outcome: Option<Outcome<T>>, spurious: bool, ranOut: bool) {
    if ranOut then r == GaveUp && Timed(w)
    else
      match (w, outcome)
      case (Get, Some(o)) => r == Got(o)
      case (Wait, Some(_)) => r == WaitDone
      case (TryGet, Some(Value(v))) => r == TryGot(Some(v))
      case (TryGet, Some(Exception(id))) => r == TryThrew(id)
      case (WaitFor, Some(_)) => r == WaitForTrue
      case (TryGet, None) => r == TryGot(None) && spurious
      case (WaitFor, None) => r == WaitForTrue && spurious
      case _ => false
  }

  ghost predicate WaitStands<T>(ss: seq<State<T>>, es: seq<Event<T>>, t: Tid, m: nat, w: Wait)
    requires Trace(ss, es) && m <= |es|
  {
    && Quiet(ss, es, t, 0, m)
    && match At(ss[m], t)
       case Entering(v) => v == w && !RanOut(ss, es, t, m)
       case Sleeping(v) => v == w && !RanOut(ss, es, t, m)
       case Woken(v) => v == w && !RanOut(ss, es, t, m) && (ss[m].outcome.Some? || WokeSpuriously(ss, es, t, m))
       case TimedOut(v) => v == w && Timed(w) && RanOut(ss, es, t, m)
       case Returned(r) => WaitAnswer(w, r, ss[m].outcome, WokeSpuriously(ss, es, t, m), RanOut(ss, es, t, m))
       case _ => false
  }

  ghost predicate Stands<T>(ss: seq<State<T>>, es: seq<Event<T>>, t: Tid, m: nat)
    requires Trace(ss, es) && m <= |es| && es != [] && es[0].kind.Act?
  {
    match es[0].kind.call
    case CallSet(o) => SetStands(ss, es, t, m, o)
    case CallWait(w) => WaitStands(ss, es, t, m, w)
  }

  // ---------- one more event ----------

  /** The steps of others do not end a call, and only a notification moves it. */
  lemma OtherMoves<T>(s: State<T>, e: Event<T>, t: Tid)
    requires e.tid != t && InCall(At(s, t))
    ensures || At(Step(s, e), t) == At(s, t)
            || (At(s, t).Sleeping? && At(s, e.tid).MustNotify? && At(Step(s, e), t) == Woken(At(s, t).wait))
  {
  }

  lemma NotifiesAll<T>(s: State<T>, e: Event<T>)
    requires At(s, e.tid).MustNotify? && e.kind.Act?
    ensures NoSleeper(Step(s, e)) && At(Step(s, e), e.tid) == Returned(SetDone) && Step(s, e).outcome == s.outcome
  {
  }

  lemma SetOn<T>(ss: seq<State<T>>, es: seq<Event<T>>, t: Tid, m: nat, o: Outcome<T>)
    requires OneCall(ss, es, t) && 0 < m < |es| && SetStands(ss, es, t, m, o)
    ensures SetStands(ss, es, t, m + 1, o)
  {
    if es[m].tid != t {
      OtherMoves(ss[m], es[m], t);
    } else if At(ss[m], t).MustNotify? && es[m].kind.Act? {
      NotifiesAll(ss[m], es[m]);
    }
  }

  /** What a wait's own step does to it. */
  lemma WaitActs<T>(s: State<T>, e: Event<T>)
    requires At(s, e.tid).Entering? || At(s, e.tid).Sleeping? || At(s, e.tid).Woken? || At(s, e.tid).TimedOut?
    ensures Step(s, e).outcome == s.outcome && Step(s, e).spurious == s.spurious
    ensures var pc, pc', timeout := At(s, e.tid), At(Step(s, e), e.tid), e.kind.Timeout?;
            match pc'
            case Entering(v) => pc == pc'
            case Sleeping(v) => pc.wait == v && !pc.TimedOut? && !(timeout && pc.Sleeping? && Timed(v))
            case Woken(v) =>
              && pc.wait == v && !pc.TimedOut? && !(timeout && pc.Sleeping? && Timed(v))
              && (pc == pc' || (pc.Sleeping? && e.kind.Spurious? && s.spurious))
            case TimedOut(v) => pc.wait == v && (pc.TimedOut? || (timeout && pc.Sleeping? && Timed(v)))
            case Returned(r) =>
              if pc.TimedOut? then r == GaveUp
              else !pc.Sleeping? && (pc.Woken? || s.outcome.Some?) && (s.outcome.Some? || Timed(pc.wait)) &&
                   r == Finish(s.outcome, pc.wait)
            case _ => false
  {
  }

  lemma RanOutOn<T>(ss: seq<State<T>>, es: seq<Event<T>>, t: Tid, m: nat)
    requires Trace(ss, es) && m < |es|
    ensures RanOut(ss, es, t, m + 1) <==>
            || RanOut(ss, es, t, m)
            || (es[m] == Event(t, Timeout) && At(ss[m], t).Sleeping? && Timed(At(ss[m], t).wait))
  {
    if es[m] == Event(t, Timeout) && At(ss[m], t).Sleeping? && Timed(At(ss[m], t).wait) {
      assert RanOut(ss, es, t, m + 1);
    } else if RanOut(ss, es, t, m) {
      var n :| 0 <= n < m && es[n] == Event(t, Timeout) && At(ss[n], t).Sleeping? && Timed(At(ss[n], t).wait);
      assert RanOut(ss, es, t, m + 1);
    }
  }

  lemma WokeSpuriouslyOn<T>(ss: seq<State<T>>, es: seq<Event<T>>, t: Tid, m: nat)
    requires Trace(ss, es) && m < |es|
    requires WokeSpuriously(ss, es, t, m) || (es[m] == Event(t, Spurious) && At(ss[m], t).Sleeping? && ss[m].spurious)
    ensures WokeSpuriously(ss, es, t, m + 1)
  {
    if WokeSpuriously(ss, es, t, m) {
      var n :| 0 <= n < m && es[n] == Event(t, Spurious) && At(ss[n], t).Sleeping? && ss[n].spurious;
      assert es[n] == Event(t, Spurious);
    } else {
      assert es[m] == Event(t, Spurious);
    }
  }

  /** Nobody unsets an outcome, and only the thread that has set it notifies. */
  lemma OutcomeStays<T>(s: State<T>, e: Event<T>)
    requires Inv(s)
    ensures s.outcome.Some? ==> Step(s, e).outcome == s.outcome
    ensures At(s, e.tid).MustNotify? ==> s.outcome.Some?
  {
    assert ThreadOk(s, e.tid);
  }

  lemma WaitOn<T>(ss: seq<State<T>>, es: seq<Event<T>>, t: Tid, m: nat, w: Wait)
    requires OneCall(ss, es, t) && 0 < m < |es| && WaitStands(ss, es, t, m, w)
    ensures WaitStands(ss, es, t, m + 1, w)
  {
    RanOutOn(ss, es, t, m);
    TraceInv(ss, es, m);
    OutcomeStays(ss[m], es[m]);
    if WokeSpuriously(ss, es, t, m) || (es[m] == Event(t, Spurious) && At(ss[m], t).Sleeping? && ss[m].spurious) {
      WokeSpuriouslyOn(ss, es, t, m);
    }
    if es[m].tid != t {
      OtherMoves(ss[m], es[m], t);
    } else {
      WaitActs(ss[m], es[m]);
    }
  }

  lemma Begins<T>(ss: seq<State<T>>, es: seq<Event<T>>, t: Tid)
    requires OneCall(ss, es, t)
    ensures Stands(ss, es, t, 1)
  {
    assert !RanOut(ss, es, t, 0);
    RanOutOn(ss, es, t, 0);
  }

  lemma {:induction false} StandsUpTo<T>(ss: seq<State<T>>, es: seq<Event<T>>, t: Tid, m: nat)
    requires OneCall(ss, es, t) && 0 < m <= |es|
    ensures Stands(ss, es, t, m)
    decreases m
  {
    if m == 1 {
      Begins(ss, es, t);
    } else {
      StandsUpTo(ss, es, t, m - 1);
      match es[0].kind.call
      case CallSet(o) => SetOn(ss, es, t, m - 1, o);
      case CallWait(w) => WaitOn(ss, es, t, m - 1, w);
    }
  }

  /**
   In every run every call answers what it was asked.  Setting `o` either set exactly that and then woke everybody,
   or left the outcome alone because it saw one.  A wait never touches the outcome; it gives up if and only if its
   timeout ran out, and otherwise answers with the outcome, in its own way, or was woken spuriously.
   */
  lemma EveryAnswerFitsItsCall<T>(ss: seq<State<T>>, es: seq<Event<T>>, t: Tid)
    requires OneCall(ss, es, t) && At(ss[|es|], t).Returned?
    ensures var r, m := At(ss[|es|], t).result, |es|;
            match es[0].kind.call
            case CallSet(o) =>
              || (r == SetDone && HasSet(ss, es, t, m, o) && HasWokenAll(ss, es, t, m))
              || (r == AlreadySatisfied && Quiet(ss, es, t, 0, m) && SawOutcome(ss, es, t, m))
            case CallWait(w) =>
              && Quiet(ss, es, t, 0, m)
              && WaitAnswer(w, r, ss[m].outcome, WokeSpuriously(ss, es, t, m), RanOut(ss, es, t, m))
  {
    StandsUpTo(ss, es, t, |es|);
  }
}
