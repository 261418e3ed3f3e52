/** Who may believe `SPSCQueue::Size`, and for which capacities. */
module SpscSize {
  import opened Ring
  import opened Prelude
  import opened Spsc
  import opened SpscProof

  /** The state after the first `i` events. */
  function After<T>(c: nat, es: seq<Event<T>>, i: nat): (s: State<T>)
    requires c > 0 && i <= |es|
    ensures |s.buffer| == c
  {
    Run(Init(c), es[..i])
  }

  lemma AfterStep<T>(c: nat, es: seq<Event<T>>, i: nat)
    requires c > 0 && i < |es|
    ensures After(c, es, i + 1) == Step(After(c, es, i), es[i])
  {
    assert es[..i + 1][..i] == es[..i];
  }

  lemma AfterStart<T>(c: nat, es: seq<Event<T>>)
    requires c > 0
    ensures After(c, es, 0) == Init(c)
  {
  }

  lemma AfterInv<T>(c: nat, es: seq<Event<T>>, i: nat)
    requires c > 0 && i <= |es|
    ensures Inv(After(c, es, i))
  {
    InitInv<T>(c);
    RunInv(Init(c), es[..i]);
  }

  /** A call of `Size` by that role loads `m_writePos` in step `j` and `m_readPos` in step `k`, and returns. */
  ghost predicate SizeCall<T>(c: nat, es: seq<Event<T>>, role: Role, j: nat, k: nat)
    requires c > 0
  {
    && j < k < |es| && es[j].role == role && es[k].role == role
    && At(After(c, es, j), role).SizeLoadWrite?
    && forall i | j < i < k :: es[i].role != role
  }

  /** The size it returns is the size at some instant from its first load to its second. */
  ghost predicate ReportsASize<T>(c: nat, es: seq<Event<T>>, role: Role, j: nat, k: nat)
    requires c > 0 && j < k < |es|
  {
    exists i :: j <= i <= k && At(After(c, es, k + 1), role) == Returned(SizeDone(|Contents(After(c, es, i))|))
  }

  ghost predicate SizeIsExact<T(!new)>(c: nat, role: Role)
    requires c > 0
  {
    forall es: seq<Event<T>>, j, k | SizeCall(c, es, role, j, k) :: ReportsASize(c, es, role, j, k)
  }

  lemma PcBefore<T>(c: nat, es: seq<Event<T>>, role: Role, i: nat)
    requires c > 0 && i < |es| && At(After(c, es, i + 1), role).SizeLoadRead?
    ensures var pc := At(After(c, es, i), role);
            if es[i].role == role then pc.SizeLoadWrite? else pc.SizeLoadRead?
  {
    AfterStep(c, es, i);
  }

  lemma {:induction false} FirstLoad<T>(c: nat, es: seq<Event<T>>, role: Role, m: nat, k: nat) returns (j: nat)
    requires c > 0 && m <= k < |es| && es[k].role == role && At(After(c, es, m), role).SizeLoadRead?
    requires forall i | m <= i < k :: es[i].role != role
    ensures SizeCall(c, es, role, j, k)
    decreases m
  {
    if m == 0 {
      AfterStart(c, es);
      assert false;
    } else {
      PcBefore(c, es, role, m - 1);
      if es[m - 1].role == role {
        j := m - 1;
      } else {
        j := FirstLoad(c, es, role, m - 1, k);
      }
    }
  }

  /** No other calls exist: whoever is about to do the second load did the first one at its previous step. */
  lemma EverySizeCall<T>(c: nat, es: seq<Event<T>>, role: Role, k: nat) returns (j: nat)
    requires c > 0 && k < |es| && es[k].role == role && At(After(c, es, k), role).SizeLoadRead?
    ensures SizeCall(c, es, role, j, k)
  {
    j := FirstLoad(c, es, role, k, k);
  }

  // ---------- what a call finds ----------

  lemma PcKeeps<T>(s: State<T>, e: Event<T>, role: Role)
    requires |s.buffer| > 0 && (e.role != role || At(s, role).SizeLoadWrite?)
    ensures At(Step(s, e), role) == if e.role == role then SizeLoadRead(s.writePos) else At(s, role)
  {
  }

  /** Only the producer pushes and only the consumer pops. */
  lemma RolesKeep<T>(s: State<T>, e: Event<T>, role: Role)
    requires Inv(s) && (e.role != role || At(s, role).SizeLoadWrite?)
    ensures role.Producer? ==> Step(s, e).pushed == s.pushed
    ensures role.Consumer? ==> Step(s, e).popped == s.popped
  {
  }

  lemma AfterKeeps<T>(c: nat, es: seq<Event<T>>, role: Role, i: nat)
    requires c > 0 && i < |es| && (es[i].role != role || At(After(c, es, i), role).SizeLoadWrite?)
    ensures At(After(c, es, i + 1), role) ==
            if es[i].role == role then SizeLoadRead(After(c, es, i).writePos) else At(After(c, es, i), role)
    ensures role.Producer? ==> After(c, es, i + 1).pushed == After(c, es, i).pushed
    ensures role.Consumer? ==> After(c, es, i + 1).popped == After(c, es, i).popped
  {
    AfterStep(c, es, i);
    AfterInv(c, es, i);
    PcKeeps(After(c, es, i), es[i], role);
    RolesKeep(After(c, es, i), es[i], role);
  }

  lemma {:induction false} CallKeeps<T>(c: nat, es: seq<Event<T>>, role: Role, j: nat, k: nat, i: nat)
    requires c > 0 && SizeCall(c, es, role, j, k) && j < i <= k
    ensures At(After(c, es, i), role) == SizeLoadRead(After(c, es, j).writePos)
    ensures role.Producer? ==> After(c, es, i).pushed == After(c, es, j).pushed
    ensures role.Consumer? ==> After(c, es, i).popped == After(c, es, j).popped
    decreases i
  {
    AfterKeeps(c, es, role, i - 1);
    if i == j + 1 {
    } else {
      CallKeeps(c, es, role, j, k, i - 1);
    }
  }

  /** A call returns what the tail at its first load and the head at its second make of it. */
  lemma SizeReturned<T>(c: nat, es: seq<Event<T>>, role: Role, j: nat, k: nat)
    requires c > 0 && SizeCall(c, es, role, j, k)
    ensures At(After(c, es, k + 1), role) ==
            Returned(SizeDone(SizeOf(Slot(|After(c, es, j).pushed|, c), Slot(|After(c, es, k).popped|, c), c)))
  {
    CallKeeps(c, es, role, j, k, k);
    AfterStep(c, es, k);
    AfterInv(c, es, j);
    AfterInv(c, es, k);
  }

  lemma PopStep<T>(s: State<T>, e: Event<T>)
    requires Inv(s)
    ensures |s.popped| <= |Step(s, e).popped|
    ensures |s.popped| < |Step(s, e).popped| ==>
              0 < |Contents(s)| < |s.buffer| && |Contents(Step(s, e))| == |Contents(s)| - 1
  {
    if At(s, e.role).PopRelease? {
      PopReleaseInv(s, e);
    }
  }

  lemma AfterPop<T>(c: nat, es: seq<Event<T>>, i: nat)
    requires c > 0 && i < |es| && |After(c, es, i).popped| != |After(c, es, i + 1).popped|
    ensures 0 < |Contents(After(c, es, i))| < c
    ensures |Contents(After(c, es, i + 1))| == |Contents(After(c, es, i))| - 1
  {
    AfterStep(c, es, i);
    AfterInv(c, es, i);
    PopStep(After(c, es, i), es[i]);
  }

  lemma {:induction false} HeadMoves(heads: seq<nat>, j: nat, k: nat) returns (i: nat)
    requires j <= k < |heads| && heads[j] != heads[k]
    ensures j <= i < k && heads[i] != heads[i + 1]
    decreases k
  {
    if heads[k - 1] != heads[k] {
      i := k - 1;
    } else {
      i := HeadMoves(heads, j, k - 1);
    }
  }

  /** How many items were popped by the time of each event. */
  function Heads<T>(c: nat, es: seq<Event<T>>): (r: seq<nat>)
    requires c > 0
    ensures |r| == |es| + 1 && forall i | 0 <= i <= |es| :: r[i] == |After(c, es, i).popped|
  {
    seq(|es| + 1, i requires 0 <= i <= |es| => |After(c, es, i).popped|)
  }

  /** A ring of at most two cells is full just before a Pop and empty just after it. */
  lemma PopBetween<T>(c: nat, es: seq<Event<T>>, j: nat, k: nat) returns (i: nat)
    requires 0 < c <= 2 && j <= k <= |es| && |After(c, es, j).popped| != |After(c, es, k).popped|
    ensures j <= i < k && |Contents(After(c, es, i))| == 1 && |Contents(After(c, es, i + 1))| == 0
  {
    i := HeadMoves(Heads(c, es), j, k);
    AfterPop(c, es, i);
  }

  lemma ExactSize<T>(c: nat, es: seq<Event<T>>, i: nat)
    requires c > 0 && i <= |es|
    ensures var s := After(c, es, i);
            SizeOf(Slot(|s.pushed|, c), Slot(|s.popped|, c), c) == |Contents(s)|
  {
    AfterInv(c, es, i);
    var s := After(c, es, i);
    SizeOfSlots(|s.popped|, |s.pushed| - |s.popped|, c);
  }

  /** The producer is told the size at its second load. */
  lemma ProducerReports<T>(c: nat, es: seq<Event<T>>, j: nat, k: nat)
    requires c > 0 && SizeCall(c, es, Producer, j, k)
    ensures At(After(c, es, k + 1), Producer) == Returned(SizeDone(|Contents(After(c, es, k))|))
  {
    SizeReturned(c, es, Producer, j, k);
    CallKeeps(c, es, Producer, j, k, k);
    ExactSize(c, es, k);
  }

  /** The consumer is told the size at its first load. */
  lemma ConsumerReports<T>(c: nat, es: seq<Event<T>>, j: nat, k: nat)
    requires c > 0 && SizeCall(c, es, Consumer, j, k)
    ensures At(After(c, es, k + 1), Consumer) == Returned(SizeDone(|Contents(After(c, es, j))|))
  {
    SizeReturned(c, es, Consumer, j, k);
    CallKeeps(c, es, Consumer, j, k, k);
    ExactSize(c, es, j);
  }

  /** An observer of at most two cells is told a size that occurred: both do if the head moved between its loads. */
  lemma ObserverReports<T>(c: nat, es: seq<Event<T>>, j: nat, k: nat)
    requires 0 < c <= 2 && SizeCall(c, es, Observer, j, k)
    ensures ReportsASize(c, es, Observer, j, k)
  {
    SizeReturned(c, es, Observer, j, k);
    var s := After(c, es, j);
    if |s.popped| == |After(c, es, k).popped| {
      ExactSize(c, es, j);
    } else {
      var i := PopBetween(c, es, j, k);
      var n := SizeOf(Slot(|s.pushed|, c), Slot(|After(c, es, k).popped|, c), c);
      assert n == |Contents(After(c, es, i))| || n == |Contents(After(c, es, i + 1))|;
    }
  }

  // ---------- an observer of a larger ring ----------

  /** The observer starts, the producer and the consumer pass one item through, the observer goes on. */
  function ObserverEvent<T>(x: T, n: nat): Event<T> {
    Event(if n < 2 then Observer else if n < 7 then Producer else if n < 12 then Consumer else Observer, x, false)
  }

  function ObserverSchedule<T>(x: T): (es: seq<Event<T>>)
    ensures |es| == 13 && forall n | 0 <= n < 13 :: es[n] == ObserverEvent(x, n)
  {
    seq(13, n requires 0 <= n < 13 => ObserverEvent(x, n))
  }

  /** The states of that schedule on a ring of `c` cells. */
  function ObserverTrace<T>(c: nat, x: T, n: nat): (s: State<T>)
    requires c > 2 && n <= 13
    ensures |s.buffer| == c && |Contents(s)| <= 1
  {
    var none: seq<Option<T>>, late := seq(c, _ => None), SizeLoadRead(0);
    var some, pushed, end := none[0 := Some(x)], Returned(PushDone(true)), Returned(PopDone(Some(x)));
    if n == 0 then State(none, 0, 0, Idle, Idle, Idle, [], [])
    else if n == 1 then State(none, 0, 0, Idle, Idle, SizeLoadWrite, [], [])
    else if n == 2 then State(none, 0, 0, Idle, Idle, late, [], [])
    else if n == 3 then State(none, 0, 0, PushLoadWrite(x), Idle, late, [], [])
    else if n == 4 then State(none, 0, 0, PushLoadRead(x, 0), Idle, late, [], [])
    else if n == 5 then State(none, 0, 0, PushStore(x, 0), Idle, late, [], [])
    else if n == 6 then State(some, 0, 0, PushPublish(x, 0), Idle, late, [], [])
    else if n == 7 then State(some, 0, 1, pushed, Idle, late, [x], [])
    else if n == 8 then State(some, 0, 1, pushed, PopLoadRead, late, [x], [])
    else if n == 9 then State(some, 0, 1, pushed, PopLoadWrite(0), late, [x], [])
    else if n == 10 then State(some, 0, 1, pushed, PopMove(0), late, [x], [])
    else if n == 11 then State(none, 0, 1, pushed, PopRelease(0, Some(x)), late, [x], [])
    else if n == 12 then State(none, 1, 1, pushed, end, late, [x], [x])
    else State(none, 1, 1, pushed, end, Returned(SizeDone(c - 1)), [x], [x])
  }

  lemma ObserverTraceSteps<T>(c: nat, x: T, n: nat)
    requires c > 2 && n < 13
    ensures Step(ObserverTrace(c, x, n), ObserverEvent(x, n)) == ObserverTrace(c, x, n + 1)
  {
    assert Next(0, c) == 1;
    if n < 7 {
    } else if n < 11 {
      var none: seq<Option<T>> := seq(c, _ => None);
      assert none[0 := Some(x)][0 := None] == none;
    } else {
    }
  }

  lemma {:induction false} ObserverTraceIsRun<T>(c: nat, x: T, n: nat)
    requires c > 2 && n <= 13
    ensures After(c, ObserverSchedule(x), n) == ObserverTrace(c, x, n)
    decreases n
  {
    if n == 0 {
    } else {
      ObserverTraceIsRun(c, x, n - 1);
      AfterStep(c, ObserverSchedule(x), n - 1);
      ObserverTraceSteps(c, x, n - 1);
    }
  }

  /** From three cells on an observer can be told `c - 1` items although the ring never held more than one. */
  lemma ObserverIsMisled<T>(c: nat, x: T)
    requires c > 2
    ensures var es := ObserverSchedule(x);
            && SizeCall(c, es, Observer, 1, 12)
            && At(After(c, es, 13), Observer) == Returned(SizeDone(c - 1))
            && forall i | 0 <= i <= 13 :: |Contents(After(c, es, i))| <= 1
  {
    var es := ObserverSchedule(x);
    ObserverTraceIsRun(c, x, 1);
    ObserverTraceIsRun(c, x, 13);
    forall i | 0 <= i <= 13 ensures |Contents(After(c, es, i))| <= 1 {
      ObserverTraceIsRun(c, x, i);
    }
  }

  /**
   In every schedule every call of `Size` returns the size at some instant between its two loads, if and only if
   the caller is the producer or the consumer or the ring has at most two cells.
   */
  lemma SizeExactIff<T(!new)>(c: nat, role: Role, x: T)
    requires c > 0
    ensures SizeIsExact<T>(c, role) <==> role != Observer || c <= 2
  {
    if role == Observer && c > 2 {
      ObserverIsMisled(c, x);
      assert !ReportsASize(c, ObserverSchedule(x), role, 1, 12);
    } else {
      forall es: seq<Event<T>>, j, k | SizeCall(c, es, role, j, k) ensures ReportsASize(c, es, role, j, k) {
        match role
        case Producer => ProducerReports(c, es, j, k);
        case Consumer => ConsumerReports(c, es, j, k);
        case Observer => ObserverReports(c, es, j, k);
      }
    }
  }
}
