/** The invariant of the queue, its preservation by every step, and what follows for callers. */
module MpmcProof {
  import opened Ring
  import opened Prelude
  import opened Mpmc

  // ---------- the invariant ----------

  /** What the sequence number of the cell of position `p` says about `p`. */
  function SeqOf(p: nat, phase: Phase, c: nat): nat {
    match phase
    case Claimed(_) => p
    case Published => p + 1
    case Taken(_) => p + 1
    case Released => p + c
  }

  ghost predicate PositionOk<T>(s: State<T>, p: nat)
    requires |s.cells| > 0 && |s.pushed| == |s.phases| == s.tail && p < s.tail
  {
    var c, cell := |s.cells|, s.cells[Slot(p, |s.cells|)];
    && (p < s.head <==> s.phases[p].Taken? || s.phases[p].Released?)
    && (s.phases[p].Released? <==> p in s.popped)
    && (p in s.popped ==> s.popped[p] == Some(s.pushed[p]))
    && (p + c < s.tail ==> s.phases[p].Released?)
    && (p + c >= s.tail ==> cell.sequence == SeqOf(p, s.phases[p], c))
    && (s.phases[p].Published? ==> cell.data == Some(s.pushed[p]))
    && (s.phases[p].Claimed? ==>
          var pc := At(s, s.phases[p].owner); (pc.PushWrite? || pc.PushPublish?) && pc.pos == p)
    && (s.phases[p].Taken? ==>
          var pc := At(s, s.phases[p].owner); (pc.PopMove? || pc.PopRelease?) && pc.pos == p)
  }

  ghost predicate Shape<T>(s: State<T>) {
    && |s.cells| >= 2
    && |s.pushed| == |s.phases| == s.tail
    && s.head <= s.tail <= s.head + |s.cells|
  }

  ghost predicate Shared<T>(s: State<T>) {
    && Shape(s)
    && (forall p | 0 <= p < s.tail :: PositionOk(s, p))
    && (forall i | s.tail <= i < |s.cells| :: s.cells[i].sequence == i)
    && (forall p | p in s.popped :: p < s.tail)
  }

  /** The sequence the cell at the tail shows to a thread that may still claim it. */
  ghost predicate TailReady<T>(s: State<T>)
    requires |s.cells| > 0
  {
    s.cells[Slot(s.tail, |s.cells|)].sequence == s.tail
  }

  ghost predicate ThreadOk<T>(s: State<T>, t: Tid)
    requires Shape(s)
  {
    var c := |s.cells|;
    match At(s, t)
    case PushLoadSeq(_, pos) => pos <= s.tail
    case PushCas(_, pos) => pos <= s.tail && (pos == s.tail ==> TailReady(s))
    case PushReload(_, pos) => pos < s.tail
    case PushWrite(x, pos) => pos < s.tail && s.phases[pos] == Claimed(t) && s.pushed[pos] == x
    case PushPublish(x, pos) =>
      && pos < s.tail && s.phases[pos] == Claimed(t) && s.pushed[pos] == x
      && s.cells[Slot(pos, c)].data == Some(x)
    case PopLoadSeq(pos) => pos <= s.head
    case PopCas(pos) => pos <= s.head && (pos == s.head ==> s.head < s.tail && s.phases[s.head].Published?)
    case PopReload(pos) => pos < s.head
    case PopMove(pos) =>
      pos < s.tail && s.phases[pos] == Taken(t) && s.cells[Slot(pos, c)].data == Some(s.pushed[pos])
    case PopRelease(pos, got) => pos < s.tail && s.phases[pos] == Taken(t) && got == Some(s.pushed[pos])
    case SizeLoadTail(h, sizeThen) => h <= s.head && sizeThen <= s.tail - h
    case _ => true
  }

  ghost predicate Inv<T>(s: State<T>) {
    Shared(s) && forall t :: ThreadOk(s, t)
  }

  // ---------- reading a cell ----------

  /** The last position at or before `tail - 1` that shares the cell of `pos`; it is at least `pos`. */
  lemma {:induction false} CurrentTenant(pos: nat, tail: nat, c: nat) returns (q: nat)
    requires c > 0 && pos < tail
    ensures pos <= q < tail <= q + c && Slot(q, c) == Slot(pos, c)
    ensures q == pos || q >= pos + c
    decreases tail - pos
  {
    if tail <= pos + c {
      q := pos;
    } else {
      q := CurrentTenant(pos + c, tail, c);
    }
  }

  /** Two distinct positions inside the live window use distinct cells. */
  lemma WindowDistinct<T>(s: State<T>, p: nat, q: nat)
    requires Shape(s) && p != q && p < s.tail <= p + |s.cells| && q < s.tail <= q + |s.cells|
    ensures Slot(p, |s.cells|) != Slot(q, |s.cells|)
  {
    if p < q {
      SlotDistinct(p, q, |s.cells|);
    } else {
      SlotDistinct(q, p, |s.cells|);
    }
  }

  /** The cell at the current tail is either free, or still held by the position one lap back. */
  lemma TailCell<T>(s: State<T>)
    requires Shared(s)
    ensures TailReady(s) <==> (s.tail < |s.cells| || s.phases[s.tail - |s.cells|].Released?)
    ensures !TailReady(s) ==> s.cells[Slot(s.tail, |s.cells|)].sequence < s.tail
  {
    if s.tail >= |s.cells| {
      assert PositionOk(s, s.tail - |s.cells|);
    }
  }

  /** What a pusher sees in the cell of a position it read earlier. */
  lemma PushSees<T>(s: State<T>, pos: nat)
    requires Shared(s) && pos <= s.tail
    ensures var seen := s.cells[Slot(pos, |s.cells|)].sequence;
            && (pos < s.tail ==> seen >= pos)
            && (pos == s.tail ==> seen <= pos)
            && (pos == s.tail ==> (seen == pos <==> TailReady(s)))
  {
    if pos < s.tail {
      var q := CurrentTenant(pos, s.tail, |s.cells|);
      assert PositionOk(s, q);
    } else {
      TailCell(s);
    }
  }

  /** What a popper sees in the cell of a position it read earlier. */
  lemma PopSees<T>(s: State<T>, pos: nat)
    requires Shared(s) && pos <= s.head
    ensures var seen := s.cells[Slot(pos, |s.cells|)].sequence;
            && (pos < s.head ==> seen >= pos + 1)
            && (pos == s.head ==> seen <= pos + 1)
            && (pos == s.head ==> (seen == pos + 1 <==> s.head < s.tail && s.phases[s.head].Published?))
  {
    if pos < s.tail {
      assert PositionOk(s, pos);
      var q := CurrentTenant(pos, s.tail, |s.cells|);
      assert PositionOk(s, q);
    } else {
      TailCell(s);
    }
  }

  // ---------- every step keeps the invariant ----------

  lemma InitInv<T>(c: nat)
    requires c >= 2
    ensures Inv(Init<T>(c))
  {
  }

  /** Steps that only move the stepping thread's program counter between unowned points. */
  lemma GotoInv<T>(s: State<T>, t: Tid, pc: Pc<T>)
    requires Inv(s)
    requires !(At(s, t).PushWrite? || At(s, t).PushPublish? || At(s, t).PopMove? || At(s, t).PopRelease?)
    requires ThreadOk(Goto(s, t, pc), t)
    ensures Inv(Goto(s, t, pc))
  {
    var s' := Goto(s, t, pc);
    forall p | 0 <= p < s'.tail ensures PositionOk(s', p) {
      assert PositionOk(s, p);
      assert ThreadOk(s, t);
    }
    forall u ensures ThreadOk(s', u) {
      assert ThreadOk(s, u);
    }
  }

  lemma ClaimPushInv<T>(s: State<T>, e: Event<T>)
    requires Inv(s) && At(s, e.tid).PushCas? && At(s, e.tid).pos == s.tail && !e.spurious
    ensures Inv(Step(Unbounded, s, e))
  {
    var s', t := Step(Unbounded, s, e), e.tid;
    assert ThreadOk(s, t);
    TailCell(s);
    if s.tail >= |s.cells| {
      assert PositionOk(s, s.tail - |s.cells|);
    }
    assert Shape(s');
    forall p | 0 <= p < s'.tail ensures PositionOk(s', p) {
      if p < s.tail {
        assert PositionOk(s, p);
      }
    }
    forall u ensures ThreadOk(s', u) {
      assert ThreadOk(s, u);
    }
  }

  lemma WriteInv<T>(s: State<T>, e: Event<T>)
    requires Inv(s) && At(s, e.tid).PushWrite?
    ensures Inv(Step(Unbounded, s, e))
  {
    var s', t := Step(Unbounded, s, e), e.tid;
    var pos, c := At(s, t).pos, |s.cells|;
    assert ThreadOk(s, t);
    assert PositionOk(s, pos);
    forall p | 0 <= p < s'.tail ensures PositionOk(s', p) {
      assert PositionOk(s, p);
      if p != pos && p + c >= s.tail {
        WindowDistinct(s, p, pos);
      }
    }
    forall u ensures ThreadOk(s', u) {
      OtherThreadKeepsData(s, s', t, u, pos);
    }
  }

  /** Writing the data of an owned cell disturbs no other thread. */
  lemma OtherThreadKeepsData<T>(s: State<T>, s': State<T>, t: Tid, u: Tid, pos: nat)
    requires Inv(s) && Shape(s') && pos < s.tail && (s.phases[pos] == Claimed(t) || s.phases[pos] == Taken(t))
    requires s'.pushed == s.pushed && s'.phases == s.phases && s'.head == s.head && s'.tail == s.tail
    requires |s'.cells| == |s.cells|
    requires forall i | 0 <= i < |s.cells| :: s'.cells[i].sequence == s.cells[i].sequence
    requires forall i | 0 <= i < |s.cells| && i != Slot(pos, |s.cells|) :: s'.cells[i] == s.cells[i]
    requires u != t ==> At(s', u) == At(s, u)
    requires ThreadOk(s', t)
    ensures ThreadOk(s', u)
  {
    assert ThreadOk(s, u);
    assert PositionOk(s, pos);
    var pc := At(s, u);
    if u != t && (pc.PushPublish? || pc.PopMove?) {
      assert PositionOk(s, pc.pos);
      WindowDistinct(s, pc.pos, pos);
    }
  }

  lemma MoveInv<T>(s: State<T>, e: Event<T>)
    requires Inv(s) && At(s, e.tid).PopMove?
    ensures Inv(Step(Unbounded, s, e))
  {
    var s', t := Step(Unbounded, s, e), e.tid;
    var pos, c := At(s, t).pos, |s.cells|;
    assert ThreadOk(s, t);
    assert PositionOk(s, pos);
    forall p | 0 <= p < s'.tail ensures PositionOk(s', p) {
      assert PositionOk(s, p);
      if p != pos && p + c >= s.tail {
        WindowDistinct(s, p, pos);
      }
    }
    forall u ensures ThreadOk(s', u) {
      OtherThreadKeepsData(s, s', t, u, pos);
    }
  }

  /** Storing the sequence of an owned cell: shared by publishing and releasing. */
  lemma StoreInv<T>(s: State<T>, e: Event<T>)
    requires Inv(s) && (At(s, e.tid).PushPublish? || At(s, e.tid).PopRelease?)
    ensures Inv(Step(Unbounded, s, e))
  {
    var s', t := Step(Unbounded, s, e), e.tid;
    var pos, c := At(s, t).pos, |s.cells|;
    assert ThreadOk(s, t);
    assert PositionOk(s, pos);
    if At(s, t).PushPublish? {
      PublishShared(s, s', t, pos);
    } else {
      ReleaseShared(s, s', t, pos);
    }
    forall u ensures ThreadOk(s', u) {
      assert ThreadOk(s, u);
      StoreKeepsThread(s, s', t, u, pos);
    }
  }

  lemma PublishShared<T>(s: State<T>, s': State<T>, t: Tid, pos: nat)
    requires Inv(s) && At(s, t).PushPublish? && At(s, t).pos == pos
    requires s' == Step(Unbounded, s, Event(t, CallPop, false))
    ensures Shared(s')
  {
    assert ThreadOk(s, t);
    assert PositionOk(s, pos);
    forall p | 0 <= p < s'.tail ensures PositionOk(s', p) {
      assert PositionOk(s, p);
      if p != pos && p + |s.cells| >= s.tail {
        WindowDistinct(s, p, pos);
      }
    }
    forall i | s'.tail <= i < |s.cells| ensures s'.cells[i].sequence == i {
      assert Slot(pos, |s.cells|) == pos;
    }
  }

  lemma ReleaseShared<T>(s: State<T>, s': State<T>, t: Tid, pos: nat)
    requires Inv(s) && At(s, t).PopRelease? && At(s, t).pos == pos && s' == Step(Unbounded, s, Event(t, CallPop, false))
    ensures Shared(s')
  {
    assert ThreadOk(s, t);
    assert PositionOk(s, pos);
    forall p | 0 <= p < s'.tail ensures PositionOk(s', p) {
      assert PositionOk(s, p);
      if p != pos && p + |s.cells| >= s.tail {
        WindowDistinct(s, p, pos);
      }
    }
    forall i | s'.tail <= i < |s.cells| ensures s'.cells[i].sequence == i {
      assert Slot(pos, |s.cells|) == pos;
    }
  }

  lemma StoreKeepsThread<T>(s: State<T>, s': State<T>, t: Tid, u: Tid, pos: nat)
    requires Inv(s) && Shape(s') && pos < s.tail && (s.phases[pos] == Claimed(t) || s.phases[pos] == Taken(t))
    requires s'.pushed == s.pushed && s'.head == s.head && s'.tail == s.tail && |s'.cells| == |s.cells|
    requires forall p | 0 <= p < s.tail && p != pos :: s'.phases[p] == s.phases[p]
    requires forall i | 0 <= i < |s.cells| :: s'.cells[i].data == s.cells[i].data
    requires forall i | 0 <= i < |s.cells| && i != Slot(pos, |s.cells|) :: s'.cells[i] == s.cells[i]
    requires u != t ==> At(s', u) == At(s, u)
    requires ThreadOk(s', t)
    ensures ThreadOk(s', u)
  {
    assert ThreadOk(s, u);
    assert PositionOk(s, pos);
    var pc, c := At(s, u), |s.cells|;
    if pc.PushCas? && pc.pos == s.tail && Slot(pos, c) == Slot(s.tail, c) {
      if s.tail < pos + c {
        SlotDistinct(pos, s.tail, c);
      }
      TailCell(s);
    }
  }

  lemma ClaimPopInv<T>(s: State<T>, e: Event<T>)
    requires Inv(s) && At(s, e.tid).PopCas? && At(s, e.tid).pos == s.head && !e.spurious
    ensures Inv(Step(Unbounded, s, e))
  {
    var s', t := Step(Unbounded, s, e), e.tid;
    assert ThreadOk(s, t);
    assert PositionOk(s, s.head);
    assert Shape(s');
    forall p | 0 <= p < s'.tail ensures PositionOk(s', p) {
      assert PositionOk(s, p);
    }
    forall u ensures ThreadOk(s', u) {
      assert ThreadOk(s, u);
    }
  }

  lemma PushStepInv<T>(s: State<T>, e: Event<T>)
    requires Inv(s) && InPush(At(s, e.tid))
    ensures Inv(Step(Unbounded, s, e))
  {
    assert ThreadOk(s, e.tid);
    match At(s, e.tid)
    case PushLoadTail(x) => GotoInv(s, e.tid, PushLoadSeq(x, s.tail));
    case PushReload(x, _) => GotoInv(s, e.tid, PushLoadSeq(x, s.tail));
    case PushLoadSeq(_, pos) =>
      PushSees(s, pos);
      GotoInv(s, e.tid, At(Step(Unbounded, s, e), e.tid));
    case PushCas(x, pos) =>
      if pos == s.tail && !e.spurious {
        ClaimPushInv(s, e);
      } else {
        GotoInv(s, e.tid, PushLoadSeq(x, s.tail));
      }
    case PushWrite(_, _) => WriteInv(s, e);
    case PushPublish(_, _) => StoreInv(s, e);
  }

  lemma PopStepInv<T>(s: State<T>, e: Event<T>)
    requires Inv(s) && InPop(At(s, e.tid))
    ensures Inv(Step(Unbounded, s, e))
  {
    assert ThreadOk(s, e.tid);
    match At(s, e.tid)
    case PopLoadHead => GotoInv(s, e.tid, PopLoadSeq(s.head));
    case PopReload(_) => GotoInv(s, e.tid, PopLoadSeq(s.head));
    case PopLoadSeq(pos) =>
      PopSees(s, pos);
      GotoInv(s, e.tid, At(Step(Unbounded, s, e), e.tid));
    case PopCas(pos) =>
      if pos == s.head && !e.spurious {
        ClaimPopInv(s, e);
      } else {
        GotoInv(s, e.tid, PopLoadSeq(s.head));
      }
    case PopMove(_) => MoveInv(s, e);
    case PopRelease(_, _) => StoreInv(s, e);
  }

  /** Every step of every thread keeps the invariant. */
  lemma StepInv<T>(s: State<T>, e: Event<T>)
    requires Inv(s)
    ensures Inv(Step(Unbounded, s, e))
  {
    var pc := At(s, e.tid);
    if InPush(pc) {
      PushStepInv(s, e);
    } else if InPop(pc) {
      PopStepInv(s, e);
    } else {
      assert ThreadOk(s, e.tid);
      GotoInv(s, e.tid, At(Step(Unbounded, s, e), e.tid));
    }
  }

  lemma {:induction false} RunInv<T>(s: State<T>, es: seq<Event<T>>)
    requires Inv(s)
    ensures Inv(Run(Unbounded, s, es))
    decreases |es|
  {
    if es == [] {
    } else {
      RunInv(s, es[..|es| - 1]);
      StepInv(Run(Unbounded, s, es[..|es| - 1]), es[|es| - 1]);
    }
  }
}
