/** What callers of the queue may rely on, in every state that any schedule reaches. */
module MpmcTheorems {
  import opened Words
  import opened Ring
  import opened Prelude
  import opened Mpmc
  import opened MpmcProof

  /** A state some schedule reaches from a new queue of `c` cells. */
  ghost predicate Reached<T(!new)>(s: State<T>, c: nat) {
    c >= 2 && exists es: seq<Event<T>> :: Run(Unbounded, Init(c), es) == s
  }

  lemma ReachedInv<T(!new)>(s: State<T>, c: nat)
    requires Reached(s, c)
    ensures Inv(s) && |s.cells| == c
  {
    var es: seq<Event<T>> :| Run(Unbounded, Init(c), es) == s;
    InitInv<T>(c);
    RunInv(Init(c), es);
  }

  // ---------- claims on stale reads ----------

  /** The position a thread holds between its claim and its final store. */
  ghost predicate Owns<T>(s: State<T>, t: Tid, pos: nat) {
    var pc := At(s, t);
    (pc.PushWrite? || pc.PushPublish? || pc.PopMove? || pc.PopRelease?) && pc.pos == pos
  }

  ghost predicate SoleOwner<T>(s: State<T>, t: Tid, pos: nat) {
    Owns(s, t, pos) && forall u | Owns(s, u, pos) :: u == t
  }

  /** Two threads that both hold a claim on the same cell are the same thread. */
  lemma ExclusiveOwner<T(!new)>(s: State<T>, c: nat, t: Tid, p: nat, u: Tid, q: nat)
    requires Reached(s, c) && Owns(s, t, p) && Owns(s, u, q) && Slot(p, c) == Slot(q, c)
    ensures t == u && p == q
  {
    ReachedInv(s, c);
    assert ThreadOk(s, t) && ThreadOk(s, u);
    assert PositionOk(s, p) && PositionOk(s, q);
    if p != q {
      WindowDistinct(s, p, q);
    }
  }

  /** A Push whose compare-exchange succeeds still finds the sequence it read earlier, and nobody holds the cell. */
  lemma PushClaimIsSound<T(!new)>(s: State<T>, c: nat, e: Event<T>)
    requires Reached(s, c) && At(s, e.tid).PushCas? && At(Step(Unbounded, s, e), e.tid).PushWrite?
    ensures var pos := At(s, e.tid).pos;
            && s.cells[Slot(pos, c)].sequence == pos
            && forall u: Tid, q: nat | Owns(s, u, q) :: Slot(q, c) != Slot(pos, c)
  {
    ReachedInv(s, c);
    assert ThreadOk(s, e.tid);
    TailCell(s);
    forall u: Tid, q: nat | Owns(s, u, q) ensures Slot(q, c) != Slot(s.tail, c) {
      assert ThreadOk(s, u);
      assert PositionOk(s, q);
      if s.tail < q + c {
        SlotDistinct(q, s.tail, c);
      }
    }
  }

  /** The same for Pop, which also finds the item pushed at its position. */
  lemma PopClaimIsSound<T(!new)>(s: State<T>, c: nat, e: Event<T>)
    requires Reached(s, c) && At(s, e.tid).PopCas? && At(Step(Unbounded, s, e), e.tid).PopMove?
    ensures var pos := At(s, e.tid).pos;
            && s.cells[Slot(pos, c)].sequence == pos + 1
            && pos < |s.pushed| && s.cells[Slot(pos, c)].data == Some(s.pushed[pos])
            && forall u: Tid, q: nat | Owns(s, u, q) :: Slot(q, c) != Slot(pos, c)
  {
    ReachedInv(s, c);
    assert ThreadOk(s, e.tid);
    assert PositionOk(s, s.head);
    forall u: Tid, q: nat | Owns(s, u, q) ensures Slot(q, c) != Slot(s.head, c) {
      assert ThreadOk(s, u);
      assert PositionOk(s, q);
      if q != s.head {
        WindowDistinct(s, q, s.head);
      }
    }
  }

  // ---------- first in, first out, nothing lost, nothing twice ----------

  /** The bounded queue as one step of a thread may change it. */
  ghost predicate QueueStep<T>(s: State<T>, e: Event<T>, s': State<T>) {
    var q, q' := Contents(s), Contents(s');
    if At(s, e.tid).PushCas? && At(s', e.tid).PushWrite? then
      |q| < |s.cells| && q' == q + [At(s, e.tid).x]
    else if At(s, e.tid).PopCas? && At(s', e.tid).PopMove? then
      |q| > 0 && q' == q[1..] && At(s', e.tid).pos < |s.pushed| && s.pushed[At(s', e.tid).pos] == q[0]
    else
      q' == q
  }

  lemma PushRefinesQueue<T>(s: State<T>, e: Event<T>)
    requires Inv(s) && InPush(At(s, e.tid))
    ensures QueueStep(s, e, StepPush(Unbounded, s, e))
  {
    assert ThreadOk(s, e.tid);
    if At(s, e.tid).PushCas? {
      TailCell(s);
      if s.tail >= |s.cells| {
        assert PositionOk(s, s.tail - |s.cells|);
      }
    }
  }

  lemma PopRefinesQueue<T>(s: State<T>, e: Event<T>)
    requires Inv(s) && InPop(At(s, e.tid))
    ensures QueueStep(s, e, StepPop(Unbounded, s, e))
  {
    assert ThreadOk(s, e.tid);
  }

  /** Every step is a step of a FIFO queue of at most `c` items: claims enqueue and dequeue, the rest stutters. */
  lemma StepRefinesQueue<T(!new)>(s: State<T>, c: nat, e: Event<T>)
    requires Reached(s, c)
    ensures QueueStep(s, e, Step(Unbounded, s, e)) && |Contents(s)| <= c
  {
    ReachedInv(s, c);
    if InPush(At(s, e.tid)) {
      PushRefinesQueue(s, e);
    } else if InPop(At(s, e.tid)) {
      PopRefinesQueue(s, e);
    }
  }

  /** A Pop that returns an item returns the one pushed at its position, and that position was never popped before. */
  lemma PopDeliversItsPosition<T(!new)>(s: State<T>, c: nat, e: Event<T>)
    requires Reached(s, c) && At(s, e.tid).PopRelease?
    ensures var pos := At(s, e.tid).pos;
            && pos < |s.pushed| && pos !in s.popped
            && At(Step(Unbounded, s, e), e.tid) == Returned(PopDone(Some(s.pushed[pos])))
            && Step(Unbounded, s, e).popped == s.popped[pos := Some(s.pushed[pos])]
  {
    ReachedInv(s, c);
    assert ThreadOk(s, e.tid);
    assert PositionOk(s, At(s, e.tid).pos);
  }

  /** A Push that returns true put its own item at its own position, where it now awaits a popper. */
  lemma PushDeliversItsItem<T(!new)>(s: State<T>, c: nat, e: Event<T>)
    requires Reached(s, c) && At(s, e.tid).PushPublish?
    ensures var s', pos := Step(Unbounded, s, e), At(s, e.tid).pos;
            && At(s', e.tid) == Returned(PushDone(true))
            && s.head <= pos < |s'.pushed| && s'.pushed[pos] == At(s, e.tid).x
            && s'.cells[Slot(pos, c)] == Cell(Some(At(s, e.tid).x), pos + 1)
  {
    ReachedInv(s, c);
    assert ThreadOk(s, e.tid);
    assert PositionOk(s, At(s, e.tid).pos);
  }

  /**
   Conservation: each position ever claimed for popping was either delivered, with its own value, or is held
   by exactly one popper; each position not yet claimed is either published in its cell or held by exactly one
   pusher; and the two indices never differ by more than the capacity.
   */
  lemma Conservation<T(!new)>(s: State<T>, c: nat)
    requires Reached(s, c)
    ensures s.head <= s.tail <= s.head + c && |s.pushed| == s.tail
    ensures forall p | p in s.popped :: p < s.head && s.popped[p] == Some(s.pushed[p])
    ensures forall p | 0 <= p < s.head && p !in s.popped ::
              exists t :: (At(s, t).PopMove? || At(s, t).PopRelease?) && SoleOwner(s, t, p)
    ensures forall p | s.head <= p < s.tail ::
              || s.cells[Slot(p, c)] == Cell(Some(s.pushed[p]), p + 1)
              || exists t :: (At(s, t).PushWrite? || At(s, t).PushPublish?) && SoleOwner(s, t, p)
  {
    ReachedInv(s, c);
    forall p | p in s.popped ensures p < s.head && s.popped[p] == Some(s.pushed[p]) {
      assert PositionOk(s, p);
    }
    forall p | 0 <= p < s.head && p !in s.popped
      ensures exists t :: (At(s, t).PopMove? || At(s, t).PopRelease?) && SoleOwner(s, t, p)
    {
      assert PositionOk(s, p);
      var t := s.phases[p].owner;
      forall u | Owns(s, u, p) ensures u == t {
        assert ThreadOk(s, u);
      }
      assert Owns(s, t, p);
    }
    forall p | s.head <= p < s.tail && s.cells[Slot(p, c)] != Cell(Some(s.pushed[p]), p + 1)
      ensures exists t :: (At(s, t).PushWrite? || At(s, t).PushPublish?) && SoleOwner(s, t, p)
    {
      assert PositionOk(s, p);
      var t := s.phases[p].owner;
      forall u | Owns(s, u, p) ensures u == t {
        assert ThreadOk(s, u);
      }
      assert Owns(s, t, p);
    }
  }

  /** History is never rewritten: later states extend what was pushed and keep what was popped. */
  ghost predicate Extends<T>(s: State<T>, s': State<T>) {
    && s.head <= s'.head && s.tail <= s'.tail && s.pushed <= s'.pushed
    && s.popped.Keys <= s'.popped.Keys
    && forall p | p in s.popped :: s'.popped[p] == s.popped[p]
  }

  lemma StepExtends<T>(s: State<T>, e: Event<T>)
    requires Inv(s)
    ensures Extends(s, Step(Unbounded, s, e))
  {
    assert ThreadOk(s, e.tid);
    if At(s, e.tid).PopRelease? {
      assert PositionOk(s, At(s, e.tid).pos);
    }
  }

  lemma {:induction false} RunExtends<T>(s: State<T>, es: seq<Event<T>>)
    requires Inv(s)
    ensures Extends(s, Run(Unbounded, s, es))
    decreases |es|
  {
    if es == [] {
    } else {
      var s1 := Run(Unbounded, s, es[..|es| - 1]);
      RunExtends(s, es[..|es| - 1]);
      RunInv(s, es[..|es| - 1]);
      StepExtends(s1, es[|es| - 1]);
    }
  }

  // ---------- exact failures ----------

  /** The position a lap behind the tail is not released yet. */
  ghost predicate NoRoom<T>(s: State<T>) {
    s.tail >= |s.cells| && s.tail <= |s.phases| && |s.cells| > 0 && !s.phases[s.tail - |s.cells|].Released?
  }

  /** There is no item, or the oldest one is not published yet. */
  ghost predicate NothingReady<T>(s: State<T>) {
    s.head == s.tail || (s.head < |s.phases| && s.phases[s.head].Claimed?)
  }

  /** Push gives up exactly when its position is the current tail and the position one lap back is unreleased. */
  lemma PushGivesUp<T>(s: State<T>, e: Event<T>)
    requires Inv(s) && InPush(At(s, e.tid))
    ensures At(Step(Unbounded, s, e), e.tid) == Returned(PushDone(false)) <==>
            At(s, e.tid).PushLoadSeq? && At(s, e.tid).pos == s.tail && NoRoom(s)
  {
    assert ThreadOk(s, e.tid);
    if At(s, e.tid).PushLoadSeq? {
      PushSees(s, At(s, e.tid).pos);
      TailCell(s);
    }
  }

  /** Pop gives up exactly when its position is the current head and that is empty or claimed but unpublished. */
  lemma PopGivesUp<T>(s: State<T>, e: Event<T>)
    requires Inv(s) && InPop(At(s, e.tid))
    ensures At(Step(Unbounded, s, e), e.tid) == Returned(PopFailed) <==>
            At(s, e.tid).PopLoadSeq? && At(s, e.tid).pos == s.head && NothingReady(s)
  {
    assert ThreadOk(s, e.tid);
    if At(s, e.tid).PopLoadSeq? {
      PopSees(s, At(s, e.tid).pos);
      if s.head < s.tail {
        assert PositionOk(s, s.head);
      }
    }
  }

  /** In every reachable state, for every step of a Push and every step of a Pop. */
  lemma FailuresAreExact<T(!new)>(s: State<T>, c: nat, e: Event<T>)
    requires Reached(s, c)
    ensures InPush(At(s, e.tid)) ==>
              (At(Step(Unbounded, s, e), e.tid) == Returned(PushDone(false)) <==>
               At(s, e.tid).PushLoadSeq? && At(s, e.tid).pos == s.tail && NoRoom(s))
    ensures InPop(At(s, e.tid)) ==>
              (At(Step(Unbounded, s, e), e.tid) == Returned(PopFailed) <==>
               At(s, e.tid).PopLoadSeq? && At(s, e.tid).pos == s.head && NothingReady(s))
  {
    ReachedInv(s, c);
    if InPush(At(s, e.tid)) {
      PushGivesUp(s, e);
    }
    if InPop(At(s, e.tid)) {
      PopGivesUp(s, e);
    }
  }

  // ---------- progress ----------

  /**
   A compare-exchange that does not fail spuriously succeeds exactly when the position it holds is still current,
   and a retry continues at a strictly larger position, the current one: somebody else's claim won.
   */
  lemma RetryMeansProgress<T(!new)>(s: State<T>, c: nat, e: Event<T>)
    requires Reached(s, c) && !e.spurious
    ensures var pc, pc' := At(s, e.tid), At(Step(Unbounded, s, e), e.tid);
            && (pc.PushCas? && pc.pos == s.tail ==> pc' == PushWrite(pc.x, pc.pos))
            && (pc.PushReload? || (pc.PushCas? && pc.pos != s.tail) ==>
                  pc' == PushLoadSeq(pc.x, s.tail) && s.tail > pc.pos)
            && (pc.PopCas? && pc.pos == s.head ==> pc' == PopMove(pc.pos))
            && (pc.PopReload? || (pc.PopCas? && pc.pos != s.head) ==> pc' == PopLoadSeq(s.head) && s.head > pc.pos)
  {
    ReachedInv(s, c);
    assert ThreadOk(s, e.tid);
  }

  /** An upper bound on the steps a call still needs if no other thread moves and nothing fails spuriously. */
  function StepsLeft<T>(s: State<T>, t: Tid): nat {
    match At(s, t)
    case Idle | Returned(_) => 0
    case PushLoadTail(_) => 5
    case PushLoadSeq(_, pos) => if pos == s.tail then 4 else 6
    case PushCas(_, pos) => if pos == s.tail then 3 else 5
    case PushReload(_, _) => 5
    case PushWrite(_, _) => 2
    case PushPublish(_, _) => 1
    case PopLoadHead => 5
    case PopLoadSeq(pos) => if pos == s.head then 4 else 6
    case PopCas(pos) => if pos == s.head then 3 else 5
    case PopReload(_) => 5
    case PopMove(_) => 2
    case PopRelease(_, _) => 1
    case SizeLoadHead => 2
    case SizeLoadTail(_, _) => 1
  }

  lemma PushNearsItsEnd<T>(s: State<T>, e: Event<T>)
    requires Inv(s) && !e.spurious && InPush(At(s, e.tid))
    ensures StepsLeft(StepPush(Unbounded, s, e), e.tid) < StepsLeft(s, e.tid) <= 6
  {
    assert ThreadOk(s, e.tid);
    if At(s, e.tid).PushLoadSeq? {
      PushSees(s, At(s, e.tid).pos);
    }
  }

  lemma PopNearsItsEnd<T>(s: State<T>, e: Event<T>)
    requires Inv(s) && !e.spurious && InPop(At(s, e.tid))
    ensures StepsLeft(StepPop(Unbounded, s, e), e.tid) < StepsLeft(s, e.tid) <= 6
  {
    assert ThreadOk(s, e.tid);
    if At(s, e.tid).PopLoadSeq? {
      PopSees(s, At(s, e.tid).pos);
    }
  }

  predicate InCall<T>(pc: Pc<T>) {
    !pc.Idle? && !pc.Returned?
  }

  lemma NearsItsEnd<T>(s: State<T>, e: Event<T>)
    requires Inv(s) && !e.spurious && InCall(At(s, e.tid))
    ensures StepsLeft(Step(Unbounded, s, e), e.tid) < StepsLeft(s, e.tid) <= 6
    ensures !At(Step(Unbounded, s, e), e.tid).Idle?
  {
    if InPush(At(s, e.tid)) {
      PushNearsItsEnd(s, e);
    } else if InPop(At(s, e.tid)) {
      PopNearsItsEnd(s, e);
    }
  }

  /** Only `t` moves, and no compare-exchange fails spuriously. */
  ghost predicate Alone<T>(es: seq<Event<T>>, t: Tid) {
    forall k | 0 <= k < |es| :: es[k].tid == t && !es[k].spurious
  }

  /** After some prefix of the schedule the call has returned. */
  ghost predicate HasReturned<T>(s: State<T>, t: Tid, es: seq<Event<T>>)
    requires |s.cells| > 0
  {
    exists n :: 0 <= n <= |es| && At(Run(Unbounded, s, es[..n]), t).Returned?
  }

  lemma {:induction false} ReturnedOrNearer<T>(s: State<T>, t: Tid, es: seq<Event<T>>)
    requires Inv(s) && InCall(At(s, t)) && Alone(es, t)
    ensures || HasReturned(s, t, es)
            || (InCall(At(Run(Unbounded, s, es), t)) && StepsLeft(Run(Unbounded, s, es), t) + |es| <= StepsLeft(s, t))
    decreases |es|
  {
    if es == [] {
    } else {
      var before := es[..|es| - 1];
      ReturnedOrNearer(s, t, before);
      if HasReturned(s, t, before) {
        var n :| 0 <= n <= |before| && At(Run(Unbounded, s, before[..n]), t).Returned?;
        assert es[..n] == before[..n];
      } else {
        RunInv(s, before);
        NearsItsEnd(Run(Unbounded, s, before), es[|es| - 1]);
        assert es[..|es|] == es;
      }
    }
  }

  /** Obstruction freedom: from any reachable state a call left alone returns within six steps. */
  lemma FinishesAlone<T(!new)>(s: State<T>, c: nat, t: Tid, es: seq<Event<T>>)
    requires Reached(s, c) && InCall(At(s, t)) && Alone(es, t) && |es| == 6
    ensures HasReturned(s, t, es)
  {
    ReachedInv(s, c);
    ReturnedOrNearer(s, t, es);
    NearsItsEnd(s, es[0]);
  }

  // ---------- Size ----------

  /** Size never underflows, on words either, and is at least the size at each of its two loads. */
  lemma SizeNeverUnderReports<T(!new)>(s: State<T>, c: nat, e: Event<T>, m: Arithmetic)
    requires Reached(s, c) && At(s, e.tid).SizeLoadTail? && s.tail < WORD
    ensures At(Step(m, s, e), e.tid).Returned? && At(Step(m, s, e), e.tid).result.SizeDone?
    ensures var n := At(Step(m, s, e), e.tid).result.size;
            n >= s.tail - s.head && n >= At(s, e.tid).sizeThen && n + At(s, e.tid).headSeen == s.tail
  {
    ReachedInv(s, c);
    assert ThreadOk(s, e.tid);
  }

  // ---------- machine words ----------

  /** Words below the sign bit add and subtract like integers. */
  lemma SmallWords(a: nat, b: nat)
    requires a < HALF && b < HALF
    ensures Plus(Word64, a, b) == a + b && Diff(Word64, a, b) == a - b && (b <= a ==> Minus(Word64, a, b) == a - b)
  {
  }

  lemma WordPushRefines<T>(s: State<T>, e: Event<T>)
    requires Inv(s) && BitAnd(|s.cells|, |s.cells| - 1) == 0 && s.tail + |s.cells| <= HALF
    requires InPush(At(s, e.tid))
    ensures StepPush(Word64, s, e) == StepPush(Unbounded, s, e)
  {
    var pc := At(s, e.tid);
    assert ThreadOk(s, e.tid);
    if !pc.PushLoadTail? {
      SlotIsMask(pc.pos, |s.cells|);
      SequenceBound(s, pc.pos);
      SmallWords(s.cells[Slot(pc.pos, |s.cells|)].sequence, pc.pos);
      SmallWords(pc.pos, 1);
    }
  }

  lemma WordPopLoadRefines<T>(s: State<T>, e: Event<T>)
    requires Inv(s) && BitAnd(|s.cells|, |s.cells| - 1) == 0 && s.tail + |s.cells| <= HALF
    requires At(s, e.tid).PopLoadSeq?
    ensures StepPop(Word64, s, e) == StepPop(Unbounded, s, e)
  {
    var pos := At(s, e.tid).pos;
    assert ThreadOk(s, e.tid);
    SlotIsMask(pos, |s.cells|);
    SequenceBound(s, pos);
    SmallWords(pos, 1);
    SmallWords(s.cells[Slot(pos, |s.cells|)].sequence, pos + 1);
  }

  lemma WordPopRefines<T>(s: State<T>, e: Event<T>)
    requires Inv(s) && BitAnd(|s.cells|, |s.cells| - 1) == 0 && s.tail + |s.cells| <= HALF
    requires InPop(At(s, e.tid))
    ensures StepPop(Word64, s, e) == StepPop(Unbounded, s, e)
  {
    var pc := At(s, e.tid);
    assert ThreadOk(s, e.tid);
    if pc.PopLoadSeq? {
      WordPopLoadRefines(s, e);
    } else if !pc.PopLoadHead? {
      SlotIsMask(pc.pos, |s.cells|);
      SmallWords(pc.pos, 1);
      SmallWords(pc.pos, if pc.PopRelease? then |s.cells| else 1);
    }
  }

  /** While the indices are far from wrapping, masks and word arithmetic step exactly as unbounded integers do. */
  lemma WordStepRefines<T>(s: State<T>, e: Event<T>)
    requires Inv(s) && BitAnd(|s.cells|, |s.cells| - 1) == 0 && s.tail + |s.cells| <= HALF
    ensures Step(Word64, s, e) == Step(Unbounded, s, e)
  {
    var pc := At(s, e.tid);
    if InPush(pc) {
      WordPushRefines(s, e);
    } else if InPop(pc) {
      WordPopRefines(s, e);
    } else if pc.SizeLoadTail? {
      assert ThreadOk(s, e.tid);
      SmallWords(s.tail, pc.headSeen);
    }
  }

  lemma SequenceBound<T>(s: State<T>, pos: nat)
    requires Shared(s) && pos <= s.tail
    ensures s.cells[Slot(pos, |s.cells|)].sequence < s.tail + |s.cells|
  {
    if pos < s.tail {
      var q := CurrentTenant(pos, s.tail, |s.cells|);
      assert PositionOk(s, q);
    } else {
      TailCell(s);
    }
  }

  /** The same for whole schedules, judged by the tail they end with. */
  lemma {:induction false} WordRunRefines<T>(c: nat, es: seq<Event<T>>)
    requires c >= 2 && BitAnd(c, c - 1) == 0
    requires Run(Unbounded, Init<T>(c), es).tail + c <= HALF
    ensures Run(Word64, Init<T>(c), es) == Run(Unbounded, Init<T>(c), es)
    decreases |es|
  {
    if es == [] {
    } else {
      var before := Run(Unbounded, Init<T>(c), es[..|es| - 1]);
      InitInv<T>(c);
      RunInv(Init<T>(c), es[..|es| - 1]);
      StepExtends(before, es[|es| - 1]);
      WordRunRefines(c, es[..|es| - 1]);
      WordStepRefines(before, es[|es| - 1]);
    }
  }

  // ---------- one cell is not enough ----------

  /** The bound on the indices, and every published unread item still in its cell. */
  ghost predicate Intact<T>(s: State<T>)
    requires |s.cells| > 0
  {
    && s.head <= s.tail <= s.head + |s.cells|
    && forall p | 0 <= p < |s.phases| && p < |s.pushed| && s.phases[p].Published? ::
         s.cells[Slot(p, |s.cells|)].data == Some(s.pushed[p])
  }

  /** One thread pushes twice. */
  function OneCellEvent<T>(a: T, b: T, n: nat): Event<T> {
    Event(0, CallPush(if n < 6 then a else b), false)
  }

  /** The states of that schedule on a queue of one cell. */
  function OneCellTrace<T>(a: T, b: T, n: nat): State<T>
    requires n <= 11
  {
    var cell0: Cell<T> := Cell(None, 0);
    var cell1, cell2 := Cell(Some(a), 0), Cell(Some(a), 1);
    if n == 0 then Init(1)
    else if n == 1 then State([cell0], 0, 0, map[0 := PushLoadTail(a)], [], [], map[])
    else if n == 2 then State([cell0], 0, 0, map[0 := PushLoadSeq(a, 0)], [], [], map[])
    else if n == 3 then State([cell0], 0, 0, map[0 := PushCas(a, 0)], [], [], map[])
    else if n == 4 then State([cell0], 0, 1, map[0 := PushWrite(a, 0)], [a], [Claimed(0)], map[])
    else if n == 5 then State([cell1], 0, 1, map[0 := PushPublish(a, 0)], [a], [Claimed(0)], map[])
    else if n == 6 then State([cell2], 0, 1, map[0 := Returned(PushDone(true))], [a], [Published], map[])
    else if n == 7 then State([cell2], 0, 1, map[0 := PushLoadTail(b)], [a], [Published], map[])
    else if n == 8 then State([cell2], 0, 1, map[0 := PushLoadSeq(b, 1)], [a], [Published], map[])
    else if n == 9 then State([cell2], 0, 1, map[0 := PushCas(b, 1)], [a], [Published], map[])
    else if n == 10 then State([cell2], 0, 2, map[0 := PushWrite(b, 1)], [a, b], [Published, Claimed(0)], map[])
    else State([Cell(Some(b), 1)], 0, 2, map[0 := PushPublish(b, 1)], [a, b], [Published, Claimed(0)], map[])
  }

  lemma OneCellTraceSteps<T>(a: T, b: T, n: nat)
    requires n < 11
    ensures |OneCellTrace(a, b, n).cells| == 1
    ensures Step(Unbounded, OneCellTrace(a, b, n), OneCellEvent(a, b, n)) == OneCellTrace(a, b, n + 1)
  {
  }

  lemma RunSnoc<T>(m: Arithmetic, s: State<T>, es: seq<Event<T>>, e: Event<T>)
    requires |s.cells| > 0
    ensures Run(m, s, es + [e]) == Step(m, Run(m, s, es), e)
  {
    assert (es + [e])[..|es|] == es;
  }

  /** With a single cell a second Push overwrites the unread first item. */
  lemma OneCellOverwrites<T>(a: T, b: T) returns (es: seq<Event<T>>)
    ensures var s := Run(Unbounded, Init<T>(1), es);
            s.tail == 2 && s.head == 0 && s.pushed == [a, b] && |s.phases| == 2 && s.phases[0] == Published &&
            s.cells[0].data == Some(b)
  {
    es := [];
    for n := 0 to 11
      invariant Run(Unbounded, Init<T>(1), es) == OneCellTrace(a, b, n)
    {
      RunSnoc(Unbounded, Init<T>(1), es, OneCellEvent(a, b, n));
      OneCellTraceSteps(a, b, n);
      es := es + [OneCellEvent(a, b, n)];
    }
  }

  /** The queue keeps its items in every schedule if and only if it has at least two cells. */
  lemma IntactIffTwoCells<T(!new)>(c: nat, a: T)
    requires c > 0
    ensures (forall es: seq<Event<T>> :: Intact(Run(Unbounded, Init<T>(c), es))) <==> c >= 2
  {
    if c >= 2 {
      forall es: seq<Event<T>> ensures Intact(Run(Unbounded, Init<T>(c), es)) {
        InitInv<T>(c);
        RunInv(Init<T>(c), es);
        var s := Run(Unbounded, Init<T>(c), es);
        forall p | 0 <= p < s.tail && s.phases[p].Published?
          ensures s.cells[Slot(p, c)].data == Some(s.pushed[p])
        {
          assert PositionOk(s, p);
        }
      }
    } else {
      var es := OneCellOverwrites(a, a);
      assert !Intact(Run(Unbounded, Init<T>(c), es));
    }
  }
}
