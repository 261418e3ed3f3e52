/**
 The state a promise and its futures share, as a monitor.  `ready`, `value` and `exception` are only touched under
 the lock, so each locked stretch is one step; setting the outcome and the `NotifyAll` that follows the unlock are
 two steps.  A sleeper leaves the wait queue by notification, by timeout, or, if the system allows it, spuriously.
 */
module FutureModel {
  import opened Prelude

  datatype Outcome<T> = Value(value: T) | Exception(id: nat)

  /** `Get` and `Wait` test in a loop, `TryGet` and `WaitFor` test once and have a timeout. */
  datatype Wait = Get | Wait | TryGet | WaitFor

  predicate Timed(w: Wait) {
    w.TryGet? || w.WaitFor?
  }

  datatype Result<T> =
    | SetDone
    | AlreadySatisfied
    | Got(outcome: Outcome<T>)
    | WaitDone
      // TryGet returned true and copied the value; `None` is a value nobody has set
    | TryGot(value: Option<T>)
    | TryThrew(id: nat)
    | WaitForTrue
    | GaveUp

  datatype Pc<T> =
    | Idle
    | Setting(o: Outcome<T>)
    | MustNotify
    | Entering(wait: Wait)
    | Sleeping(wait: Wait)
    | Woken(wait: Wait)
    | TimedOut(wait: Wait)
    | Returned(result: Result<T>)

  /**
   `outcome` is `Some` when ready.  `setter` and `sets` are history: who set the outcome, and how often it was set.
   */
  datatype State<T> = State(
    spurious: bool,
    outcome: Option<Outcome<T>>,
    pcs: map<Tid, Pc<T>>,
    setter: Option<Tid>,
    sets: nat)

  datatype Call<T> = CallSet(o: Outcome<T>) | CallWait(wait: Wait)

  datatype Kind<T> = Act(call: Call<T>) | Timeout | Spurious

  datatype Event<T> = Event(tid: Tid, kind: Kind<T>)

  function At<T>(s: State<T>, t: Tid): Pc<T> {
    if t in s.pcs then s.pcs[t] else Idle
  }

  function Init<T>(spurious: bool): State<T> {
    State(spurious, None, map[], None, 0)
  }

  function Goto<T>(s: State<T>, t: Tid, pc: Pc<T>): State<T> {
    s.(pcs := s.pcs[t := pc])
  }

  function NotifyAll<T>(pcs: map<Tid, Pc<T>>): map<Tid, Pc<T>> {
    map t | t in pcs :: if pcs[t].Sleeping? then Woken(pcs[t].wait) else pcs[t]
  }

  /** What a wait returns when it stops waiting, ready or not. */
  function Finish<T>(outcome: Option<Outcome<T>>, w: Wait): Result<T> {
    match (w, outcome)
    case (TryGet, Some(Value(v))) => TryGot(Some(v))
    case (TryGet, Some(Exception(id))) => TryThrew(id)
    case (TryGet, None) => TryGot(None)
    case (WaitFor, _) => WaitForTrue
    case (Get, Some(o)) => Got(o)
    case _ => WaitDone
  }

  function Step<T>(s: State<T>, e: Event<T>): State<T> {
    var t := e.tid;
    match (At(s, t), e.kind)
    case (Idle, Act(call)) => Goto(s, t, Invoke(call))
    case (Returned(_), Act(call)) => Goto(s, t, Invoke(call))
    case (Setting(o), Act(_)) =>
      if s.outcome.Some? then Goto(s, t, Returned(AlreadySatisfied))
      else Goto(s, t, MustNotify).(outcome := Some(o), setter := Some(t), sets := s.sets + 1)
    case (MustNotify, Act(_)) => s.(pcs := NotifyAll(s.pcs)[t := Returned(SetDone)])
    case (Entering(w), Act(_)) =>
      Goto(s, t, if s.outcome.Some? then Returned(Finish(s.outcome, w)) else Sleeping(w))
    case (Sleeping(w), Spurious) => if s.spurious then Goto(s, t, Woken(w)) else s
    case (Sleeping(w), Timeout) => if Timed(w) then Goto(s, t, TimedOut(w)) else s
    case (Woken(w), Act(_)) =>
      Goto(s, t, if s.outcome.Some? || Timed(w) then Returned(Finish(s.outcome, w)) else Sleeping(w))
    case (TimedOut(w), Act(_)) => Goto(s, t, Returned(GaveUp))
    case _ => s
  }

  function Invoke<T>(call: Call<T>): Pc<T> {
    match call
    case CallSet(o) => Setting(o)
    case CallWait(w) => Entering(w)
  }

  function Run<T>(s: State<T>, es: seq<Event<T>>): State<T> {
    if es == [] then s else Step(Run(s, es[..|es| - 1]), es[|es| - 1])
  }

  // ---------- the invariant ----------

  /** What a returned result says about the outcome. */
  ghost predicate ResultOk<T>(s: State<T>, r: Result<T>) {
    match r
    case SetDone | AlreadySatisfied => s.outcome.Some?
    case Got(o) => s.outcome == Some(o)
    case WaitDone => s.outcome.Some?
    case TryGot(v) => if v.Some? then s.outcome == Some(Value(v.value)) else s.spurious
    case TryThrew(id) => s.outcome == Some(Exception(id))
    case WaitForTrue => s.outcome.Some? || s.spurious
    case GaveUp => true
  }

  ghost predicate ThreadOk<T>(s: State<T>, t: Tid) {
    var pc := At(s, t);
    && (pc.MustNotify? ==> s.setter == Some(t))
    && (pc.Woken? ==> s.outcome.Some? || s.spurious)
    && (pc.Sleeping? && s.outcome.Some? ==> s.setter.Some? && At(s, s.setter.value).MustNotify?)
    && (pc.TimedOut? ==> Timed(pc.wait))
    && (pc.Returned? ==> ResultOk(s, pc.result))
  }

  ghost predicate Inv<T>(s: State<T>) {
    && s.sets == (if s.outcome.Some? then 1 else 0)
    && (s.setter.Some? <==> s.outcome.Some?)
    && forall t :: ThreadOk(s, t)
  }

  /** Steps that move one thread and leave the outcome alone. */
  lemma GotoInv<T>(s: State<T>, t: Tid, pc: Pc<T>)
    requires Inv(s) && !At(s, t).MustNotify? && ThreadOk(Goto(s, t, pc), t)
    ensures Inv(Goto(s, t, pc))
  {
    var s' := Goto(s, t, pc);
    forall u ensures ThreadOk(s', u) {
      assert ThreadOk(s, u);
    }
  }

  lemma SetInv<T>(s: State<T>, e: Event<T>)
    requires Inv(s) && (At(s, e.tid).Setting? || At(s, e.tid).MustNotify?)
    ensures Inv(Step(s, e))
  {
    var s' := Step(s, e);
    assert ThreadOk(s, e.tid);
    forall u ensures ThreadOk(s', u) {
      assert ThreadOk(s, u);
    }
  }

  lemma StepInv<T>(s: State<T>, e: Event<T>)
    requires Inv(s)
    ensures Inv(Step(s, e))
  {
    assert ThreadOk(s, e.tid);
    if At(s, e.tid).Setting? || At(s, e.tid).MustNotify? {
      SetInv(s, e);
    } else {
      var pc := At(Step(s, e), e.tid);
      if Step(s, e) != s {
        assert Step(s, e) == Goto(s, e.tid, pc);
        GotoInv(s, e.tid, pc);
      }
    }
  }

  lemma {:induction false} RunInv<T>(s: State<T>, es: seq<Event<T>>)
    requires Inv(s)
    ensures Inv(Run(s, es)) && Run(s, es).spurious == s.spurious
    decreases |es|
  {
    if es == [] {
    } else {
      RunInv(s, es[..|es| - 1]);
      StepInv(Run(s, es[..|es| - 1]), es[|es| - 1]);
    }
  }

  ghost predicate Reached<T(!new)>(s: State<T>) {
    exists es: seq<Event<T>> :: Run(Init<T>(s.spurious), es) == s
  }

  lemma ReachedInv<T(!new)>(s: State<T>)
    requires Reached(s)
    ensures Inv(s)
  {
    var es: seq<Event<T>> :| Run(Init<T>(s.spurious), es) == s;
    RunInv(Init<T>(s.spurious), es);
  }

  // ---------- single assignment ----------

  /** An attempt to set fails exactly when the outcome is there already, and otherwise installs its own outcome. */
  lemma SetOnce<T(!new)>(s: State<T>, e: Event<T>)
    requires Reached(s) && At(s, e.tid).Setting? && e.kind.Act?
    ensures s.sets <= 1
    ensures At(Step(s, e), e.tid) == Returned(AlreadySatisfied) <==> s.outcome.Some?
    ensures Step(s, e).outcome == if s.outcome.Some? then s.outcome else Some(At(s, e.tid).o)
  {
    ReachedInv(s);
  }

  /** Once set, the outcome never changes, whatever runs afterwards, and it was set exactly once. */
  lemma {:induction false} OutcomeIsFinal<T(!new)>(s: State<T>, es: seq<Event<T>>)
    requires Inv(s) && s.outcome.Some?
    ensures Run(s, es).outcome == s.outcome && Run(s, es).sets == 1
    decreases |es|
  {
    if es == [] {
    } else {
      OutcomeIsFinal(s, es[..|es| - 1]);
    }
  }

  // ---------- waiting ----------

  /** `Get` and `Wait` return only when ready, and `Get` returns or rethrows exactly the outcome that was set. */
  lemma WaitersSeeTheOutcome<T(!new)>(s: State<T>, t: Tid)
    requires Reached(s) && At(s, t).Returned?
    ensures At(s, t).result.WaitDone? ==> s.outcome.Some?
    ensures At(s, t).result.Got? ==> s.outcome == Some(At(s, t).result.outcome)
    ensures At(s, t).result.TryThrew? ==> s.outcome == Some(Exception(At(s, t).result.id))
    ensures At(s, t).result.TryGot? && At(s, t).result.value.Some? ==>
              s.outcome == Some(Value(At(s, t).result.value.value))
  {
    ReachedInv(s);
    assert ThreadOk(s, t);
  }

  /**
   No lost wakeup: a sleeper in a ready state is owed a notification that the setter is about to send, that
   notification wakes every sleeper, and whoever is awake in a ready state and has not timed out returns the
   outcome at its next step.
   */
  lemma NoLostWakeup<T(!new)>(s: State<T>, t: Tid, call: Call<T>)
    requires Reached(s) && s.outcome.Some?
    ensures At(s, t).Sleeping? ==> s.setter.Some? && At(s, s.setter.value).MustNotify?
    ensures At(s, t).MustNotify? ==> forall u :: !At(Step(s, Event(t, Act(call))), u).Sleeping?
    ensures At(s, t).Entering? || At(s, t).Woken? ==>
              At(Step(s, Event(t, Act(call))), t) == Returned(Finish(s.outcome, At(s, t).wait))
  {
    ReachedInv(s);
    assert ThreadOk(s, t);
  }

  // ---------- waits that test once ----------

  /** `TryGet` and `WaitFor` return true only when ready. */
  ghost predicate TrueMeansReady<T>(s: State<T>) {
    forall t :: At(s, t).Returned? && (At(s, t).result.TryGot? || At(s, t).result.WaitForTrue?) ==> s.outcome.Some?
  }

  lemma SpuriousWaitFor<T>() returns (es: seq<Event<T>>)
    ensures Run(Init<T>(true), es).outcome.None? && At(Run(Init<T>(true), es), 0) == Returned(WaitForTrue)
  {
    var act: Event<T> := Event(0, Act(CallWait(WaitFor)));
    es := [act, act, Event(0, Spurious), act];
    var s0 := Init<T>(true);
    var s1 := Step(s0, act);
    var s2 := Step(s1, act);
    var s3 := Step(s2, es[2]);
    assert es[..3] == [act, act, es[2]] && es[..3][..2] == [act, act] && [act, act][..1] == [act];
    assert Run(s0, [act]) == s1;
    assert Run(s0, [act, act]) == s2;
    assert Run(s0, es[..3]) == s3;
  }

  /** They keep that promise in every schedule if and only if wakeups are never spurious. */
  lemma TrueMeansReadyIffNoSpuriousWakeups<T(!new)>(spurious: bool)
    ensures (forall es: seq<Event<T>> :: TrueMeansReady(Run(Init<T>(spurious), es))) <==> !spurious
  {
    if spurious {
      var es := SpuriousWaitFor<T>();
      assert !TrueMeansReady(Run(Init<T>(spurious), es));
    } else {
      forall es: seq<Event<T>> ensures TrueMeansReady(Run(Init<T>(spurious), es)) {
        RunInv(Init<T>(spurious), es);
        var s := Run(Init<T>(spurious), es);
        forall t
          ensures At(s, t).Returned? && (At(s, t).result.TryGot? || At(s, t).result.WaitForTrue?) ==> s.outcome.Some?
        {
          assert ThreadOk(s, t);
        }
      }
    }
  }

  // ---------- the object ----------

  class SharedState<T> {
    const spurious: bool
    var outcome: Option<Outcome<T>>
    var pcs: map<Tid, Pc<T>>
    ghost var setter: Option<Tid>
    ghost var sets: nat

    ghost function View(): State<T>
      reads this
    {
      State(spurious, outcome, pcs, setter, sets)
    }

    constructor (spurious: bool)
      ensures View() == Init(spurious)
    {
      this.spurious := spurious;
      outcome, pcs, setter, sets := None, map[], None, 0;
    }

    method Advance(e: Event<T>)
      modifies this
      ensures View() == Step(old(View()), e)
    {
      var t := e.tid;
      var pc := if t in pcs then pcs[t] else Idle;
      match (pc, e.kind)
      case (Idle, Act(call)) => pcs := pcs[t := Invoke(call)];
      case (Returned(_), Act(call)) => pcs := pcs[t := Invoke(call)];
      case (Setting(o), Act(_)) =>
        if outcome.Some? {
          pcs := pcs[t := Returned(AlreadySatisfied)];
        } else {
          outcome, pcs := Some(o), pcs[t := MustNotify];
          setter, sets := Some(t), sets + 1;
        }
      case (MustNotify, Act(_)) => pcs := NotifyAll(pcs)[t := Returned(SetDone)];
      case (Entering(w), Act(_)) =>
        pcs := pcs[t := if outcome.Some? then Returned(Finish(outcome, w)) else Sleeping(w)];
      case (Sleeping(w), Spurious) =>
        if spurious {
          pcs := pcs[t := Woken(w)];
        }
      case (Sleeping(w), Timeout) =>
        if Timed(w) {
          pcs := pcs[t := TimedOut(w)];
        }
      case (Woken(w), Act(_)) =>
        pcs := pcs[t := if outcome.Some? || Timed(w) then Returned(Finish(outcome, w)) else Sleeping(w)];
      case (TimedOut(w), Act(_)) => pcs := pcs[t := Returned(GaveUp)];
      case _ =>
    }

    method Execute(es: seq<Event<T>>)
      requires Inv(View())
      modifies this
      ensures View() == Run(old(View()), es) && Inv(View())
    {
      ghost var start := View();
      for k := 0 to |es|
        invariant View() == Run(start, es[..k])
      {
        Advance(es[k]);
        assert es[..k + 1][..k] == es[..k];
      }
      assert es[..|es|] == es;
      RunInv(start, es);
    }
  }
}
