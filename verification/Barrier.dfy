/**
 The reusable barrier as a monitor.  Fields are touched only under the lock, so each stretch between acquiring
 and releasing it (or going to sleep) is one step; falling asleep releases the lock in the same step, and a
 sleeper leaves the wait queue by notification, by timeout or spuriously before it competes for the lock again.
 */
module BarrierModel {
  import opened Words
  import opened Prelude

  datatype Pc =
    | Outside
    | Sleeping(gen: nat, timed: bool)
    | Woken(gen: nat, timed: bool)
    | TimedOut(gen: nat)
    | Left(gen: nat, ok: bool)

  /**
   The fields from `arrived` on are history: arrivals and withdrawals by generation, how many lasting arrivals
   each finished generation had when it ended, and how many withdrawals came from a generation that was already
   over, in all and since the current one began.
   */
  datatype State = State(
    count: nat,
    generation: nat,
    waiting: nat,
    pcs: map<Tid, Pc>,
    arrived: seq<nat>,
    withdrawn: seq<nat>,
    lasting: seq<int>,
    stale: nat,
    debt: nat)

  /** `Act` is the thread's own next step; the other two happen to a sleeper. */
  datatype Kind = Act(timed: bool) | Timeout | Spurious

  datatype Event = Event(tid: Tid, kind: Kind)

  function At(s: State, t: Tid): Pc {
    if t in s.pcs then s.pcs[t] else Outside
  }

  function Goto(s: State, t: Tid, pc: Pc): State {
    s.(pcs := s.pcs[t := pc])
  }

  function Init(count: nat): State {
    State(count, 0, 0, map[], [0], [0], [], 0, 0)
  }

  function Bump(xs: seq<nat>, k: nat): seq<nat> {
    if k < |xs| then xs[k := xs[k] + 1] else xs
  }

  function Entry(xs: seq<nat>, k: nat): nat {
    if k < |xs| then xs[k] else 0
  }

  /** Arrivals of generation `g` that were not withdrawn. */
  function Net(s: State, g: nat): int {
    Entry(s.arrived, g) as int - Entry(s.withdrawn, g) as int
  }

  function Wake(pc: Pc): Pc {
    if pc.Sleeping? then Woken(pc.gen, pc.timed) else pc
  }

  function NotifyAll(pcs: map<Tid, Pc>): map<Tid, Pc> {
    map t | t in pcs :: Wake(pcs[t])
  }

  /** `++m_waiting` and `--m_waiting` on a 64-bit field. */
  function Increment(w: nat): nat {
    (w + 1) % WORD
  }

  function Decrement(w: nat): nat {
    if w == 0 then WORD - 1 else w - 1
  }

  function Arrive(s: State, t: Tid, timed: bool): State {
    var g := s.generation;
    var arrived := Bump(s.arrived, g);
    if Increment(s.waiting) == s.count then
      s.(waiting := 0, generation := g + 1, arrived := arrived + [0], withdrawn := s.withdrawn + [0],
         lasting := s.lasting + [Net(s, g) + 1], debt := 0,
         pcs := NotifyAll(s.pcs)[t := Left(g, true)])
    else
      Goto(s, t, Sleeping(g, timed)).(waiting := Increment(s.waiting), arrived := arrived)
  }

  function Step(s: State, e: Event): State {
    match (At(s, e.tid), e.kind)
    case (Sleeping(g, timed), Spurious) => Goto(s, e.tid, Woken(g, timed))
    case (Sleeping(g, true), Timeout) => Goto(s, e.tid, TimedOut(g))
    case (Outside, Act(timed)) => Arrive(s, e.tid, timed)
    case (Left(_, _), Act(timed)) => Arrive(s, e.tid, timed)
    case (Woken(g, timed), Act(_)) =>
      Goto(s, e.tid, if s.generation == g then Sleeping(g, timed) else Left(g, true))
    case (TimedOut(g), Act(_)) =>
      Goto(s, e.tid, Left(g, false)).(
        waiting := Decrement(s.waiting),
        withdrawn := Bump(s.withdrawn, g),
        stale := if g == s.generation then s.stale else s.stale + 1,
        debt := if g == s.generation then s.debt else s.debt + 1)
    case _ => s
  }

  function Run(s: State, es: seq<Event>): State {
    if es == [] then s else Step(Run(s, es[..|es| - 1]), es[|es| - 1])
  }

  // ---------- the law of the barrier ----------

  ghost predicate Shape(s: State) {
    && 0 < s.count < WORD && |s.arrived| == |s.withdrawn| == |s.lasting| + 1 == s.generation + 1
    && forall t | t in s.pcs && !s.pcs[t].Outside? :: s.pcs[t].gen <= s.generation
  }

  /**
   Every finished generation had exactly `count` lasting arrivals, the current one has `waiting`, fewer than
   `count`.
   */
  ghost predicate Law(s: State)
    requires Shape(s)
  {
    && s.waiting < s.count
    && Net(s, s.generation) == s.waiting
    && forall g | 0 <= g < s.generation :: Net(s, g) == s.count
  }

  /** The threads the current generation is holding. */
  ghost function Held(s: State): set<Tid> {
    set t | t in s.pcs && (s.pcs[t].Sleeping? || s.pcs[t].Woken? || s.pcs[t].TimedOut?) && s.pcs[t].gen == s.generation
  }

  /** Equal up to wrap-around of a 64-bit word. */
  predicate Congruent(a: int, b: int) {
    (a - b) % WORD == 0
  }

  /** The word `waiting` counts the threads held, less the stale withdrawals it suffered, up to wrap-around. */
  ghost predicate Counted(s: State) {
    && s.waiting < WORD
    && Net(s, s.generation) == |Held(s)|
    && Congruent(s.waiting + s.debt, Net(s, s.generation))
    && s.debt <= s.stale
  }

  ghost predicate Inv(s: State) {
    && Shape(s)
    && (forall t | t in s.pcs && s.pcs[t].Sleeping? :: s.pcs[t].gen == s.generation)
    && (forall t | t in s.pcs && s.pcs[t].Left? && s.pcs[t].ok :: s.pcs[t].gen < s.generation)
    && Counted(s)
    && (s.stale + s.count <= WORD ==> forall g | 0 <= g < s.generation :: s.lasting[g] >= s.count)
    && (s.stale == 0 ==> Law(s))
    && (s.stale > 0 ==> exists g :: 0 <= g < s.generation && Net(s, g) < s.count)
  }

  lemma IncrementWraps(w: nat)
    requires w < WORD
    ensures Increment(w) < WORD && Congruent(Increment(w), w + 1)
    ensures w + 1 < WORD ==> Increment(w) == w + 1
  {
  }

  lemma DecrementWraps(w: nat)
    requires w < WORD
    ensures Decrement(w) < WORD && Congruent(Decrement(w), w - 1)
  {
  }

  lemma CongruentTrans(a: int, b: int, c: int)
    requires Congruent(a, b) && Congruent(b, c)
    ensures Congruent(a, c)
  {
  }

  lemma HeldGrows(s: State, s': State, t: Tid)
    requires t !in Held(s) && Held(s') == Held(s) + {t}
    ensures |Held(s')| == |Held(s)| + 1
  {
  }

  lemma SleepKeepsNets(s: State, t: Tid, timed: bool)
    requires Shape(s) && Increment(s.waiting) != s.count
    ensures var s' := Arrive(s, t, timed);
            && Shape(s') && Net(s', s.generation) == Net(s, s.generation) + 1
            && forall g | 0 <= g < s.generation :: Net(s', g) == Net(s, g)
  {
  }

  lemma SleepCounted(s: State, t: Tid, timed: bool)
    requires Inv(s) && (At(s, t).Outside? || At(s, t).Left?) && Increment(s.waiting) != s.count
    ensures Counted(Arrive(s, t, timed))
  {
    var s' := Arrive(s, t, timed);
    SleepKeepsNets(s, t, timed);
    assert t !in Held(s) && Held(s') == Held(s) + {t};
    HeldGrows(s, s', t);
    IncrementWraps(s.waiting);
    CongruentTrans(s'.waiting + s.debt, s.waiting + 1 + s.debt, Net(s', s.generation));
  }

  lemma SleepInv(s: State, t: Tid, timed: bool)
    requires Inv(s) && (At(s, t).Outside? || At(s, t).Left?) && Increment(s.waiting) != s.count
    ensures Inv(Arrive(s, t, timed))
  {
    SleepKeepsNets(s, t, timed);
    SleepCounted(s, t, timed);
    IncrementWraps(s.waiting);
  }

  /** What the word count hides from an arrival that ends a generation: exactly the stale withdrawals since it began. */
  lemma EndingCount(s: State)
    requires Shape(s) && Counted(s) && Increment(s.waiting) == s.count
    ensures s.waiting == s.count - 1 && Congruent(Net(s, s.generation) + 1, s.count + s.debt)
    ensures s.stale + s.count <= WORD ==> Net(s, s.generation) + 1 >= s.count + s.debt
    ensures Net(s, s.generation) + 1 < WORD ==>
              (Net(s, s.generation) + 1 >= s.count <==> (s.count + s.debt) % WORD >= s.count)
  {
    var n := Net(s, s.generation) + 1;
    assert Congruent(n, s.count + s.debt);
    if n < WORD {
      assert n == (s.count + s.debt) % WORD;
    }
  }

  lemma ReleaseKeepsNets(s: State, t: Tid, timed: bool)
    requires Shape(s) && Increment(s.waiting) == s.count
    ensures var s', g := Arrive(s, t, timed), s.generation;
            && Shape(s') && Net(s', g) == Net(s, g) + 1 && Net(s', g + 1) == 0
            && forall k | 0 <= k < g :: Net(s', k) == Net(s, k)
  {
    var s' := Arrive(s, t, timed);
    assert forall u | u in s'.pcs && u != t :: s'.pcs[u] == Wake(s.pcs[u]);
  }

  lemma ReleaseInv(s: State, t: Tid, timed: bool)
    requires Inv(s) && (At(s, t).Outside? || At(s, t).Left?) && Increment(s.waiting) == s.count
    ensures Inv(Arrive(s, t, timed))
  {
    var s' := Arrive(s, t, timed);
    EndingCount(s);
    ReleaseKeepsNets(s, t, timed);
    assert forall u | u in s'.pcs && u != t :: s'.pcs[u] == Wake(s.pcs[u]);
    assert Held(s') == {};
  }

  lemma WithdrawKeepsNets(s: State, e: Event)
    requires Shape(s) && At(s, e.tid).TimedOut? && e.kind.Act?
    ensures var s', g := Step(s, e), At(s, e.tid).gen;
            && Shape(s') && g <= s.generation && Net(s', g) == Net(s, g) - 1
            && forall k | 0 <= k <= s.generation && k != g :: Net(s', k) == Net(s, k)
  {
  }

  lemma WithdrawCounted(s: State, e: Event)
    requires Inv(s) && At(s, e.tid).TimedOut? && e.kind.Act?
    ensures Counted(Step(s, e))
  {
    var s', t := Step(s, e), e.tid;
    WithdrawKeepsNets(s, e);
    if At(s, t).gen == s.generation {
      assert t in Held(s) && Held(s') == Held(s) - {t};
    } else {
      assert Held(s') == Held(s);
    }
    DecrementWraps(s.waiting);
    CongruentTrans(s'.waiting + s'.debt, s.waiting - 1 + s'.debt, Net(s', s.generation));
  }

  lemma WithdrawInv(s: State, e: Event)
    requires Inv(s) && At(s, e.tid).TimedOut? && e.kind.Act?
    ensures Inv(Step(s, e))
  {
    WithdrawKeepsNets(s, e);
    WithdrawCounted(s, e);
    if s.stale == 0 && At(s, e.tid).gen == s.generation {
      assert e.tid in Held(s);
    }
  }

  lemma StepInv(s: State, e: Event)
    requires Inv(s)
    ensures Inv(Step(s, e))
  {
    var s', pc := Step(s, e), At(s, e.tid);
    if (pc.Outside? || pc.Left?) && e.kind.Act? {
      if Increment(s.waiting) == s.count {
        ReleaseInv(s, e.tid, e.kind.timed);
      } else {
        SleepInv(s, e.tid, e.kind.timed);
      }
    } else if pc.TimedOut? && e.kind.Act? {
      WithdrawInv(s, e);
    } else {
      assert forall g | 0 <= g <= s.generation :: Net(s', g) == Net(s, g);
      assert Held(s') == Held(s);
    }
  }

  lemma {:induction false} RunInv(count: nat, es: seq<Event>)
    requires 0 < count < WORD
    ensures Inv(Run(Init(count), es))
    decreases |es|
  {
    if es == [] {
      assert Held(Init(count)) == {};
    } else {
      RunInv(count, es[..|es| - 1]);
      StepInv(Run(Init(count), es[..|es| - 1]), es[|es| - 1]);
    }
  }

  ghost predicate Reached(s: State) {
    exists count: nat, es: seq<Event> :: 0 < count < WORD && Run(Init(count), es) == s
  }

  lemma ReachedInv(s: State)
    requires Reached(s)
    ensures Inv(s)
  {
    var count: nat, es: seq<Event> :| 0 < count < WORD && Run(Init(count), es) == s;
    RunInv(count, es);
  }

  // ---------- consequences ----------

  /** The law holds if and only if no timed-out thread ever withdrew from a generation that was already over. */
  lemma LawIffNoStaleWithdrawal(s: State)
    requires Reached(s)
    ensures Shape(s) && (Law(s) <==> s.stale == 0)
  {
    ReachedInv(s);
    if s.stale > 0 {
      var g :| 0 <= g < s.generation && Net(s, g) < s.count;
    }
  }

  function Sum(xs: seq<nat>): nat {
    if xs == [] then 0 else Sum(xs[..|xs| - 1]) + xs[|xs| - 1]
  }

  lemma {:induction false} SumBump(xs: seq<nat>, k: nat)
    requires k < |xs|
    ensures Sum(Bump(xs, k)) == Sum(xs) + 1
    decreases |xs|
  {
    var n := |xs| - 1;
    if k == n {
      assert Bump(xs, k)[..n] == xs[..n];
    } else {
      SumBump(xs[..n], k);
      assert Bump(xs, k)[..n] == Bump(xs[..n], k);
    }
  }

  lemma SumSnoc(xs: seq<nat>, x: nat)
    ensures Sum(xs + [x]) == Sum(xs) + x
  {
    assert (xs + [x])[..|xs|] == xs;
  }

  /** All the arrivals that went into finished generations, and those waiting now. */
  function Expected(s: State): int {
    s.count * s.generation + s.waiting
  }

  /** Lasting arrivals over the whole run, against what the fields say, up to wrap-around. */
  ghost predicate Balanced(s: State) {
    Congruent(Sum(s.arrived) - Sum(s.withdrawn), Expected(s))
  }

  lemma ProductSucc(count: nat, g: nat)
    ensures count * (g + 1) == count * g + count
  {
  }

  lemma SleepBalanced(s: State, t: Tid, timed: bool)
    requires Shape(s) && s.waiting < WORD && Balanced(s) && Increment(s.waiting) != s.count
    ensures Balanced(Arrive(s, t, timed))
  {
    var s' := Arrive(s, t, timed);
    SumBump(s.arrived, s.generation);
    IncrementWraps(s.waiting);
    CongruentTrans(Sum(s'.arrived) - Sum(s'.withdrawn), Expected(s) + 1, Expected(s'));
  }

  lemma ReleaseBalanced(s: State, t: Tid, timed: bool)
    requires Shape(s) && s.waiting == s.count - 1 && Balanced(s) && Increment(s.waiting) == s.count
    ensures Balanced(Arrive(s, t, timed))
  {
    var s' := Arrive(s, t, timed);
    SumBump(s.arrived, s.generation);
    SumSnoc(Bump(s.arrived, s.generation), 0);
    SumSnoc(s.withdrawn, 0);
    ProductSucc(s.count, s.generation);
    assert Expected(s') == Expected(s) + 1;
  }

  lemma WithdrawBalanced(s: State, e: Event)
    requires Shape(s) && s.waiting < WORD && Balanced(s) && At(s, e.tid).TimedOut? && e.kind.Act?
    ensures Balanced(Step(s, e))
  {
    var s' := Step(s, e);
    SumBump(s.withdrawn, At(s, e.tid).gen);
    DecrementWraps(s.waiting);
    CongruentTrans(Sum(s'.arrived) - Sum(s'.withdrawn), Expected(s) - 1, Expected(s'));
  }

  lemma StepBalanced(s: State, e: Event)
    requires Inv(s) && Balanced(s)
    ensures Balanced(Step(s, e))
  {
    var pc := At(s, e.tid);
    if (pc.Outside? || pc.Left?) && e.kind.Act? {
      if Increment(s.waiting) == s.count {
        EndingCount(s);
        ReleaseBalanced(s, e.tid, e.kind.timed);
      } else {
        SleepBalanced(s, e.tid, e.kind.timed);
      }
    } else if pc.TimedOut? && e.kind.Act? {
      WithdrawBalanced(s, e);
    }
  }

  lemma {:induction false} RunBalanced(count: nat, es: seq<Event>)
    requires 0 < count < WORD
    ensures Balanced(Run(Init(count), es))
    decreases |es|
  {
    if es == [] {
      SumSnoc([], 0);
    } else {
      RunBalanced(count, es[..|es| - 1]);
      RunInv(count, es[..|es| - 1]);
      StepBalanced(Run(Init(count), es[..|es| - 1]), es[|es| - 1]);
    }
  }

  lemma {:induction false} SumOfNets(arrived: seq<nat>, withdrawn: seq<nat>, count: nat)
    requires |arrived| == |withdrawn| && forall g | 0 <= g < |arrived| :: arrived[g] == withdrawn[g] + count
    ensures Sum(arrived) == Sum(withdrawn) + count * |arrived|
    decreases |arrived|
  {
    if arrived == [] {
    } else {
      var n := |arrived| - 1;
      SumOfNets(arrived[..n], withdrawn[..n], count);
      assert count * (n + 1) == count * n + count;
    }
  }

  lemma ExactConservation(s: State)
    requires Inv(s) && s.stale == 0
    ensures Sum(s.arrived) - Sum(s.withdrawn) == Expected(s)
  {
    var before, gone := s.arrived[..s.generation], s.withdrawn[..s.generation];
    forall g | 0 <= g < s.generation ensures before[g] == gone[g] + s.count {
      assert Net(s, g) == s.count;
    }
    SumOfNets(before, gone, s.count);
    assert Net(s, s.generation) == s.waiting;
  }

  lemma ReachedBalanced(s: State)
    requires Reached(s)
    ensures Balanced(s)
  {
    var count: nat, es: seq<Event> :| 0 < count < WORD && Run(Init(count), es) == s;
    RunBalanced(count, es);
  }

  /**
   Conservation over any run: the lasting arrivals are those of the finished generations plus those waiting now,
   as 64-bit words; and without a stale withdrawal they are so exactly, with fewer than `count` waiting.
   */
  lemma Conservation(s: State)
    requires Reached(s)
    ensures Congruent(Sum(s.arrived) - Sum(s.withdrawn), Expected(s))
    ensures s.stale == 0 ==> Sum(s.arrived) - Sum(s.withdrawn) == Expected(s) && s.waiting < s.count
  {
    ReachedBalanced(s);
    ReachedInv(s);
    if s.stale == 0 {
      ExactConservation(s);
    }
  }

  /**
   Whoever left a generation successfully left one that had collected `count` lasting arrivals when it ended,
   stale withdrawals or not, as long as fewer than about 2^64 of them have happened.
   */
  lemma NobodyLeavesEarly(s: State, t: Tid)
    requires Reached(s) && At(s, t).Left? && At(s, t).ok
    ensures At(s, t).gen < s.generation == |s.lasting|
    ensures s.stale + s.count <= WORD ==> s.lasting[At(s, t).gen] >= s.count
    ensures s.stale == 0 ==> Shape(s) && Net(s, At(s, t).gen) == s.count
  {
    ReachedInv(s);
  }

  /** An arrival that ends a generation finds `count` plus the stale withdrawals since it began, up to wrap-around. */
  lemma EndingArrival(s: State, t: Tid, timed: bool)
    requires Reached(s) && Arrive(s, t, timed).generation != s.generation
    ensures var n := Net(s, s.generation) + 1;
            && Arrive(s, t, timed).lasting == s.lasting + [n] && Congruent(n, s.count + s.debt) && s.debt <= s.stale
            && (n < WORD ==> (n >= s.count <==> (s.count + s.debt) % WORD >= s.count))
  {
    ReachedInv(s);
    EndingCount(s);
  }

  /** No wakeup is lost: nobody sleeps in a finished generation, and a woken member of one leaves at its next step. */
  lemma NoLostWakeup(s: State, t: Tid, timed: bool)
    requires Reached(s)
    ensures At(s, t).Sleeping? ==> At(s, t).gen == s.generation
    ensures At(s, t).Woken? ==>
              At(Step(s, Event(t, Act(timed))), t) ==
              (if At(s, t).gen < s.generation then Left(At(s, t).gen, true) else Sleeping(s.generation, At(s, t).timed))
  {
    ReachedInv(s);
  }

  /**
   A timed-out thread reports failure and gives back its own arrival, and nothing else, if its generation is still
   open.
   */
  lemma TimelyWithdrawal(s: State, t: Tid, timed: bool)
    requires Reached(s) && s.stale == 0 && At(s, t) == TimedOut(s.generation)
    ensures s.waiting > 0 && |s.withdrawn| == s.generation + 1
    ensures Step(s, Event(t, Act(timed))) ==
            Goto(s, t, Left(s.generation, false)).(
              waiting := s.waiting - 1, withdrawn := s.withdrawn[s.generation := s.withdrawn[s.generation] + 1])
  {
    ReachedInv(s);
    assert t in Held(s);
  }

  lemma RunSnoc(s: State, es: seq<Event>, e: Event)
    ensures Run(s, es + [e]) == Step(Run(s, es), e)
  {
    assert (es + [e])[..|es|] == es;
  }

  /** The schedule of the theorem below, and the states it goes through. */
  function StaleEvent(n: nat): Event
    requires n < 6
  {
    [Event(0, Act(true)), Event(0, Timeout), Event(1, Act(false)),
     Event(0, Act(false)), Event(2, Act(false)), Event(3, Act(false))][n]
  }

  function StaleTrace(n: nat): State
    requires n <= 6
  {
    var out, late, early := Left(0, false), TimedOut(0), Left(0, true);
    if n == 0 then Init(2)
    else if n == 1 then State(2, 0, 1, map[0 := Sleeping(0, true)], [1], [0], [], 0, 0)
    else if n == 2 then State(2, 0, 1, map[0 := late], [1], [0], [], 0, 0)
    else if n == 3 then State(2, 1, 0, map[0 := late, 1 := early], [2, 0], [0, 0], [2], 0, 0)
    else if n == 4 then State(2, 1, WORD - 1, map[0 := out, 1 := early], [2, 0], [1, 0], [2], 1, 1)
    else if n == 5 then State(2, 1, 0, map[0 := out, 1 := early, 2 := Sleeping(1, false)], [2, 1], [1, 0], [2], 1, 1)
    else
      State(2, 1, 1, map[0 := out, 1 := early, 2 := Sleeping(1, false), 3 := Sleeping(1, false)],
            [2, 2], [1, 0], [2], 1, 1)
  }

  lemma StaleTraceSteps(n: nat)
    requires n < 6
    ensures Step(StaleTrace(n), StaleEvent(n)) == StaleTrace(n + 1)
  {
    if n == 2 {
      assert NotifyAll(StaleTrace(2).pcs) == map[0 := TimedOut(0)];
    } else if n < 2 {
    } else if n < 4 {
    } else if n == 4 {
    } else {
    }
  }

  /**
   A barrier for two: thread 0 times out, thread 1 completes the generation, and only then does thread 0
   withdraw.  The count wraps, and the next two arrivals both sleep although the barrier is for two.
   */
  lemma StaleWithdrawalStrandsWaiters() returns (es: seq<Event>)
    ensures var s := Run(Init(2), es);
            && s.generation == 1 && |s.arrived| == 2 && |s.withdrawn| == 2 && Net(s, 1) == s.count == 2
            && At(s, 2) == Sleeping(1, false) && At(s, 3) == Sleeping(1, false) && s.stale == 1
    ensures |es| == 6 && Run(Init(2), es[..4]).waiting == WORD - 1
  {
    es := [];
    assert Init(2) == StaleTrace(0);
    for n := 0 to 6
      invariant |es| == n && Run(Init(2), es) == StaleTrace(n)
      invariant n >= 4 ==> Run(Init(2), es[..4]) == StaleTrace(4)
    {
      RunSnoc(Init(2), es, StaleEvent(n));
      StaleTraceSteps(n);
      assert n >= 4 ==> (es + [StaleEvent(n)])[..4] == es[..4];
      es := es + [StaleEvent(n)];
      assert n == 3 ==> es[..4] == es;
    }
  }

  // ---------- the object ----------

  class Barrier {
    var count: nat
    var generation: nat
    var waiting: nat
    var pcs: map<Tid, Pc>
    ghost var arrived: seq<nat>
    ghost var withdrawn: seq<nat>
    ghost var lasting: seq<int>
    ghost var stale: nat
    ghost var debt: nat

    ghost function View(): State
      reads this
    {
      State(count, generation, waiting, pcs, arrived, withdrawn, lasting, stale, debt)
    }

    constructor (count: nat)
      requires 0 < count < WORD
      ensures View() == Init(count)
    {
      this.count, generation, waiting, pcs := count, 0, 0, map[];
      arrived, withdrawn, lasting, stale, debt := [0], [0], [], 0, 0;
    }

    /** Construction from any word: a count of zero is the error the source throws. */
    static method Create(count: nat) returns (b: Option<Barrier>)
      requires count < WORD
      ensures b.None? <==> count == 0
      ensures b.Some? ==> fresh(b.value) && b.value.View() == Init(count)
    {
      if count == 0 {
        return None;
      }
      var barrier := new Barrier(count);
      b := Some(barrier);
    }

    /** `Wait` and `WaitFor` up to the point where they return or fall asleep. */
    method Enter(t: Tid, timed: bool)
      requires Inv(View()) && (At(View(), t).Outside? || At(View(), t).Left?)
      modifies this
      ensures View() == Step(old(View()), Event(t, Act(timed))) && Inv(View())
    {
      StepInv(View(), Event(t, Act(timed)));
      CountIn(t, timed);
    }

    method CountIn(t: Tid, timed: bool)
      modifies this
      ensures View() == Arrive(old(View()), t, timed)
    {
      var currentGeneration := generation;
      ghost var collected := Net(View(), generation) + 1;
      waiting := (waiting + 1) % WORD;
      arrived := Bump(arrived, generation);
      if waiting == count {
        waiting := 0;
        generation := generation + 1;
        arrived, withdrawn := arrived + [0], withdrawn + [0];
        lasting, debt := lasting + [collected], 0;
        pcs := NotifyAll(pcs)[t := Left(currentGeneration, true)];
      } else {
        pcs := pcs[t := Sleeping(currentGeneration, timed)];
      }
    }

    /** A sleeper that was woken or timed out holds the lock again. */
    method Resume(t: Tid)
      requires Inv(View()) && (At(View(), t).Woken? || At(View(), t).TimedOut?)
      modifies this
      ensures View() == Step(old(View()), Event(t, Act(false))) && Inv(View())
    {
      StepInv(View(), Event(t, Act(false)));
      match pcs[t]
      case Woken(g, timed) =>
        pcs := pcs[t := if generation == g then Sleeping(g, timed) else Left(g, true)];
      case TimedOut(g) =>
        debt := if g == generation then debt else debt + 1;
        stale := if g == generation then stale else stale + 1;
        withdrawn := Bump(withdrawn, g);
        waiting := if waiting == 0 then WORD - 1 else waiting - 1;
        pcs := pcs[t := Left(g, false)];
    }

    /** The condition variable lets a sleeper go by itself. */
    method LeaveQueue(t: Tid, timeout: bool)
      requires Inv(View()) && At(View(), t).Sleeping? && (timeout ==> At(View(), t).timed)
      modifies this
      ensures View() == Step(old(View()), Event(t, if timeout then Timeout else Spurious)) && Inv(View())
    {
      StepInv(View(), Event(t, if timeout then Timeout else Spurious));
      pcs := pcs[t := if timeout then TimedOut(pcs[t].gen) else Woken(pcs[t].gen, pcs[t].timed)];
    }
  }
}
