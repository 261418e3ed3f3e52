/**
 `OnceFlag::CallOnce` for any number of threads.  The lock is a recursive critical section, so a callable that
 calls the same flag again gets a second frame on its own thread.
 */
module OnceFlagModel {
  import opened Prelude

  /** Where one call of `CallOnce` stands; named after what it does next. */
  datatype Frame = FastLoad | WantLock | Check | Running | Store | Unlock(threw: bool)

  /**
   `reentrant` says whether callables may call the same flag again.  `completions` counts callables that finished
   without throwing and `normalReturns` the calls that returned normally; both are history.
   */
  datatype State = State(
    reentrant: bool,
    called: bool,
    owner: Option<Tid>,
    depth: nat,
    frames: map<Tid, seq<Frame>>,
    completions: nat,
    normalReturns: nat)

  /** A running callable may finish, throw, or call the flag again; elsewhere the choice is ignored. */
  datatype Choice = Finish | Throw | CallAgain

  datatype Event = Event(tid: Tid, choice: Choice)

  function Frames(s: State, t: Tid): seq<Frame> {
    if t in s.frames then s.frames[t] else []
  }

  function Init(reentrant: bool): State {
    State(reentrant, false, None, 0, map[], 0, 0)
  }

  /** Innermost frame last. */
  function SetTop(s: State, t: Tid, frame: Frame): State {
    var fs := Frames(s, t);
    if fs == [] then s else s.(frames := s.frames[t := fs[|fs| - 1 := frame]])
  }

  function Pop(s: State, t: Tid, threw: bool): State {
    var fs := Frames(s, t);
    if fs == [] then s
    else s.(
      frames := s.frames[t := fs[..|fs| - 1]],
      normalReturns := if threw then s.normalReturns else s.normalReturns + 1)
  }

  function Push(s: State, t: Tid): State {
    s.(frames := s.frames[t := Frames(s, t) + [FastLoad]])
  }

  function Step(s: State, e: Event): State {
    var t, fs := e.tid, Frames(s, e.tid);
    if fs == [] then Push(s, t)
    else
      match fs[|fs| - 1]
      case FastLoad => if s.called then Pop(s, t, false) else SetTop(s, t, WantLock)
      case WantLock =>
        if s.owner == None || s.owner == Some(t) then
          SetTop(s, t, Check).(owner := Some(t), depth := s.depth + 1)
        else s
      case Check => SetTop(s, t, if s.called then Unlock(false) else Running)
      case Running =>
        (match e.choice
         case Finish => SetTop(s, t, Store).(completions := s.completions + 1)
         case Throw => SetTop(s, t, Unlock(true))
         case CallAgain => if s.reentrant then Push(s, t) else s)
      case Store => SetTop(s, t, Unlock(false)).(called := true)
      case Unlock(threw) =>
        Pop(s, t, threw).(
          depth := if s.depth > 0 then s.depth - 1 else 0,
          owner := if s.depth <= 1 then None else s.owner)
  }

  function Run(s: State, es: seq<Event>): State {
    if es == [] then s else Step(Run(s, es[..|es| - 1]), es[|es| - 1])
  }

  // ---------- without re-entry ----------

  predicate InLock(f: Frame) {
    f.Check? || f.Running? || f.Store? || f.Unlock?
  }

  ghost predicate ThreadOk(s: State, t: Tid) {
    var fs := Frames(s, t);
    && |fs| <= 1
    && (s.owner == Some(t) <==> fs != [] && InLock(fs[0]))
    && (fs == [Running] ==> !s.called)
    && (fs == [Store] ==> !s.called)
    && (fs == [Unlock(false)] ==> s.called)
  }

  ghost predicate Inv(s: State) {
    && !s.reentrant
    && (forall t :: ThreadOk(s, t))
    && s.depth == (if s.owner == None then 0 else 1)
    && s.completions == (if s.called || (s.owner.Some? && Frames(s, s.owner.value) == [Store]) then 1 else 0)
    && (s.normalReturns > 0 ==> s.called)
  }

  lemma StepInv(s: State, e: Event)
    requires Inv(s)
    ensures Inv(Step(s, e))
  {
    var s', t := Step(s, e), e.tid;
    assert ThreadOk(s, t);
    forall u ensures ThreadOk(s', u) {
      assert ThreadOk(s, u);
      if u != t {
        assert Frames(s', u) == Frames(s, u);
      }
    }
    if s.owner.Some? {
      assert ThreadOk(s, s.owner.value);
    }
    if s'.owner.Some? {
      assert ThreadOk(s', s'.owner.value);
    }
  }

  lemma {:induction false} RunInv(es: seq<Event>)
    ensures Inv(Run(Init(false), es))
    decreases |es|
  {
    if es == [] {
    } else {
      RunInv(es[..|es| - 1]);
      StepInv(Run(Init(false), es[..|es| - 1]), es[|es| - 1]);
    }
  }

  /** At most one callable completes, and nobody has returned normally before it has. */
  ghost predicate Once(s: State) {
    s.completions <= 1 && (s.normalReturns > 0 ==> s.completions == 1)
  }

  // ---------- with re-entry ----------

  lemma RunSnoc(s: State, es: seq<Event>, e: Event)
    ensures Run(s, es + [e]) == Step(Run(s, es), e)
  {
    assert (es + [e])[..|es|] == es;
  }

  function ReentryEvent(n: nat): Event {
    Event(0, if n == 4 then CallAgain else Finish)
  }

  /** One thread: the callable calls the flag again, the inner callable completes, then the outer one does. */
  function ReentryTrace(n: nat): State
    requires n <= 12
  {
    var free, held: Option<Tid> := None, Some(0);
    if n == 0 then Init(true)
    else if n == 1 then State(true, false, free, 0, map[0 := [FastLoad]], 0, 0)
    else if n == 2 then State(true, false, free, 0, map[0 := [WantLock]], 0, 0)
    else if n == 3 then State(true, false, held, 1, map[0 := [Check]], 0, 0)
    else if n == 4 then State(true, false, held, 1, map[0 := [Running]], 0, 0)
    else if n == 5 then State(true, false, held, 1, map[0 := [Running, FastLoad]], 0, 0)
    else if n == 6 then State(true, false, held, 1, map[0 := [Running, WantLock]], 0, 0)
    else if n == 7 then State(true, false, held, 2, map[0 := [Running, Check]], 0, 0)
    else if n == 8 then State(true, false, held, 2, map[0 := [Running, Running]], 0, 0)
    else if n == 9 then State(true, false, held, 2, map[0 := [Running, Store]], 1, 0)
    else if n == 10 then State(true, true, held, 2, map[0 := [Running, Unlock(false)]], 1, 0)
    else if n == 11 then State(true, true, held, 1, map[0 := [Running]], 1, 1)
    else State(true, true, held, 1, map[0 := [Store]], 2, 1)
  }

  lemma ReentryTraceSteps(n: nat)
    requires n < 12
    ensures Step(ReentryTrace(n), ReentryEvent(n)) == ReentryTrace(n + 1)
  {
    var fs, fs' := Frames(ReentryTrace(n), 0), Frames(ReentryTrace(n + 1), 0);
    assert fs' == fs + [FastLoad] || fs' == fs[..|fs| - 1] || (fs != [] && fs' == fs[|fs| - 1 := fs'[|fs| - 1]]);
  }

  lemma ReentryCompletesTwice() returns (es: seq<Event>)
    ensures Run(Init(true), es).completions == 2
  {
    es := [];
    for n := 0 to 12
      invariant Run(Init(true), es) == ReentryTrace(n)
    {
      RunSnoc(Init(true), es, ReentryEvent(n));
      ReentryTraceSteps(n);
      es := es + [ReentryEvent(n)];
    }
  }

  /**
   For any threads, any schedule and any throwing calls the flag works if and only if callables do not re-enter it.
   */
  lemma OnceIffNotReentrant(reentrant: bool)
    ensures (forall es: seq<Event> :: Once(Run(Init(reentrant), es))) <==> !reentrant
  {
    if reentrant {
      var es := ReentryCompletesTwice();
      assert !Once(Run(Init(reentrant), es));
    } else {
      forall es: seq<Event> ensures Once(Run(Init(reentrant), es)) {
        RunInv(es);
      }
    }
  }

  /** How many more steps a thread needs, when the lock is free or its own and its callable does not linger. */
  function StepsLeft(s: State, t: Tid): nat {
    if Frames(s, t) == [] then 0
    else
      match Frames(s, t)[|Frames(s, t)| - 1]
      case FastLoad => 6
      case WantLock => 5
      case Check => 4
      case Running => 3
      case Store => 2
      case Unlock(_) => 1
  }

  /** Only another owner of the lock can hold a call up, and a throwing callable leaves the flag and the lock free. */
  lemma Proceeds(s: State, e: Event)
    requires Inv(s) && Frames(s, e.tid) != [] && e.choice != CallAgain
    requires s.owner == None || s.owner == Some(e.tid)
    ensures StepsLeft(Step(s, e), e.tid) < StepsLeft(s, e.tid)
    ensures Frames(s, e.tid) == [Unlock(true)] ==>
              Step(s, e).owner == None && Step(s, e).called == s.called && Step(s, e).normalReturns == s.normalReturns
  {
    assert ThreadOk(s, e.tid);
  }

  // ---------- the object ----------

  class OnceFlag {
    const reentrant: bool
    var called: bool
    var owner: Option<Tid>
    var depth: nat
    var frames: map<Tid, seq<Frame>>
    ghost var completions: nat
    ghost var normalReturns: nat

    ghost function View(): State
      reads this
    {
      State(reentrant, called, owner, depth, frames, completions, normalReturns)
    }

    constructor (reentrant: bool)
      ensures View() == Init(reentrant)
    {
      this.reentrant := reentrant;
      called, owner, depth, frames := false, None, 0, map[];
      completions, normalReturns := 0, 0;
    }

    method Advance(e: Event)
      modifies this
      ensures View() == Step(old(View()), e)
    {
      var t := e.tid;
      var fs := if t in frames then frames[t] else [];
      if fs == [] {
        frames := frames[t := fs + [FastLoad]];
        return;
      }
      var top, outer := |fs| - 1, fs[..|fs| - 1];
      match fs[top]
      case FastLoad =>
        if called {
          frames, normalReturns := frames[t := outer], normalReturns + 1;
        } else {
          frames := frames[t := fs[top := WantLock]];
        }
      case WantLock =>
        if owner == None || owner == Some(t) {
          owner, depth, frames := Some(t), depth + 1, frames[t := fs[top := Check]];
        }
      case Check => frames := frames[t := fs[top := if called then Unlock(false) else Running]];
      case Running =>
        match e.choice {
          case Finish => frames, completions := frames[t := fs[top := Store]], completions + 1;
          case Throw => frames := frames[t := fs[top := Unlock(true)]];
          case CallAgain =>
            if reentrant {
              frames := frames[t := fs + [FastLoad]];
            }
        }
      case Store => called, frames := true, frames[t := fs[top := Unlock(false)]];
      case Unlock(threw) =>
        owner := if depth <= 1 then None else owner;
        depth := if depth > 0 then depth - 1 else 0;
        frames, normalReturns := frames[t := outer], if threw then normalReturns else normalReturns + 1;
    }

    method Execute(es: seq<Event>)
      modifies this
      ensures View() == Run(old(View()), es)
    {
      ghost var start := View();
      for k := 0 to |es|
        invariant View() == Run(start, es[..k])
      {
        Advance(es[k]);
        assert es[..k + 1][..k] == es[..k];
      }
      assert es[..|es|] == es;
    }
  }
}
