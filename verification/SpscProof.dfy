/** The ring refines a FIFO of at most `Capacity - 1` items, for every interleaving. */
module SpscProof {
  import opened Words
  import opened Ring
  import opened Prelude
  import opened Spsc

  // ---------- index arithmetic ----------

  /** `(i + 1) & (Capacity - 1)` */
  lemma NextIsMask(i: nat, c: nat)
    requires c > 0 && BitAnd(c, c - 1) == 0
    ensures Next(i, c) == BitAnd(i + 1, c - 1)
  {
    SlotIsMask(i + 1, c);
  }

  lemma {:induction false} NextSlot(p: nat, c: nat)
    requires c > 0
    ensures Next(Slot(p, c), c) == Slot(p + 1, c)
    decreases p
  {
    if p < c {
    } else {
      NextSlot(p - c, c);
    }
  }

  /** From the two indices `Size` recovers the distance between the positions behind them. */
  lemma {:induction false} SizeOfSlots(p: nat, n: nat, c: nat)
    requires n < c
    ensures SizeOf(Slot(p + n, c), Slot(p, c), c) == n
    decreases p
  {
    if p < c {
    } else {
      SizeOfSlots(p - c, n, c);
    }
  }

  /** Two indices are equal exactly when the positions behind them, less than a lap apart, are. */
  lemma SlotsMeet(p: nat, q: nat, c: nat)
    requires c > 0 && p <= q <= p + c
    ensures Slot(p, c) == Slot(q, c) <==> p == q || q == p + c
  {
    if p < q < p + c {
      SlotDistinct(p, q, c);
    }
  }

  // ---------- the invariant ----------

  ghost predicate Shared<T>(s: State<T>) {
    var c, h, t := |s.buffer|, |s.popped|, |s.pushed|;
    && c > 0
    && h <= t <= h + c - 1
    && s.popped == s.pushed[..h]
    && s.writePos == Slot(t, c) && s.readPos == Slot(h, c)
    && forall p | h <= p < t :: (p == h && s.consumer.PopRelease?) || s.buffer[Slot(p, c)] == Some(s.pushed[p])
  }

  ghost predicate ProducerOk<T>(s: State<T>) {
    match s.producer
    case Idle | PushLoadWrite(_) | SizeLoadWrite | SizeLoadRead(_) | Returned(_) => true
    case PushLoadRead(_, w) => w == s.writePos
    case PushStore(_, w) => w == s.writePos && |Contents(s)| < |s.buffer| - 1
    case PushPublish(x, w) =>
      w == s.writePos && |Contents(s)| < |s.buffer| - 1 && w < |s.buffer| && s.buffer[w] == Some(x)
    case _ => false
  }

  ghost predicate ConsumerOk<T>(s: State<T>) {
    match s.consumer
    case Idle | PopLoadRead | SizeLoadWrite | SizeLoadRead(_) | Returned(_) => true
    case PopLoadWrite(r) => r == s.readPos
    case PopMove(r) => r == s.readPos && |s.popped| < |s.pushed|
    case PopRelease(r, got) => r == s.readPos && |s.popped| < |s.pushed| && got == Some(s.pushed[|s.popped|])
    case _ => false
  }

  ghost predicate ObserverOk<T>(s: State<T>) {
    s.observer.Idle? || s.observer.SizeLoadWrite? || s.observer.SizeLoadRead? || s.observer.Returned?
  }

  ghost predicate Inv<T>(s: State<T>) {
    Shared(s) && ProducerOk(s) && ConsumerOk(s) && ObserverOk(s)
  }

  // ---------- every step keeps it ----------

  lemma InitInv<T>(c: nat)
    requires c > 0
    ensures Inv(Init<T>(c))
  {
  }

  lemma PushStoreInv<T>(s: State<T>, e: Event<T>)
    requires Inv(s) && e.role.Producer? && s.producer.PushStore?
    ensures Inv(Step(s, e))
  {
    var c, h, t := |s.buffer|, |s.popped|, |s.pushed|;
    forall p | h <= p < t ensures Slot(p, c) != Slot(t, c) {
      SlotDistinct(p, t, c);
    }
  }

  lemma PushPublishInv<T>(s: State<T>, e: Event<T>)
    requires Inv(s) && e.role.Producer? && s.producer.PushPublish?
    ensures Inv(Step(s, e))
    ensures Contents(Step(s, e)) == Contents(s) + [s.producer.x]
  {
    var s', pc := Step(s, e), s.producer;
    NextSlot(|s.pushed|, |s.buffer|);
    assert s' == State(s.buffer, s.readPos, Next(pc.w, |s.buffer|), Returned(PushDone(true)), s.consumer, s.observer,
                       s.pushed + [pc.x], s.popped);
    PublishedShared(s, s', pc.x);
    assert ConsumerOk(s');
    AppendDrop(s.pushed, pc.x, |s.popped|);
  }

  lemma PublishedShared<T>(s: State<T>, s': State<T>, x: T)
    requires Shared(s) && |Contents(s)| < |s.buffer| - 1 && s.buffer[s.writePos] == Some(x)
    requires s'.buffer == s.buffer && s'.readPos == s.readPos && s'.consumer == s.consumer && s'.popped == s.popped
    requires s'.pushed == s.pushed + [x] && s'.writePos == Slot(|s.pushed| + 1, |s.buffer|)
    ensures Shared(s')
  {
    AppendTake(s.pushed, x, |s.popped|);
  }

  lemma AppendTake<T>(a: seq<T>, x: T, h: nat)
    requires h <= |a|
    ensures (a + [x])[..h] == a[..h]
  {
  }

  lemma AppendDrop<T>(a: seq<T>, x: T, h: nat)
    requires h <= |a|
    ensures (a + [x])[h..] == a[h..] + [x]
  {
  }

  lemma PopMoveInv<T>(s: State<T>, e: Event<T>)
    requires Inv(s) && e.role.Consumer? && s.consumer.PopMove?
    ensures Inv(Step(s, e))
  {
    var c, h, t := |s.buffer|, |s.popped|, |s.pushed|;
    forall p | h < p <= t ensures Slot(p, c) != Slot(h, c) {
      SlotDistinct(h, p, c);
    }
  }

  lemma PopReleaseInv<T>(s: State<T>, e: Event<T>)
    requires Inv(s) && e.role.Consumer? && s.consumer.PopRelease?
    ensures Inv(Step(s, e))
    ensures Contents(s) != [] && s.consumer.got == Some(Contents(s)[0])
    ensures Contents(Step(s, e)) == Contents(s)[1..]
  {
    NextSlot(|s.popped|, |s.buffer|);
  }

  /** Push sees the ring full exactly when it holds `Capacity - 1` items at that instant. */
  lemma FullTest<T>(s: State<T>)
    requires Shared(s)
    ensures Next(s.writePos, |s.buffer|) == s.readPos <==> |Contents(s)| == |s.buffer| - 1
  {
    NextSlot(|s.pushed|, |s.buffer|);
    SlotsMeet(|s.popped|, |s.pushed| + 1, |s.buffer|);
  }

  /** Pop sees the ring empty exactly when it holds nothing at that instant. */
  lemma EmptyTest<T>(s: State<T>)
    requires Shared(s)
    ensures s.readPos == s.writePos <==> Contents(s) == []
  {
    SlotsMeet(|s.popped|, |s.pushed|, |s.buffer|);
  }

  /** Steps that touch neither the buffer nor the indices. */
  predicate IsLocal<T>(pc: Pc<T>) {
    !pc.PushStore? && !pc.PushPublish? && !pc.PopMove? && !pc.PopRelease?
  }

  lemma ProducerGotoInv<T>(s: State<T>, pc: Pc<T>)
    requires Inv(s) && ProducerOk(s.(producer := pc))
    ensures Inv(s.(producer := pc)) && Contents(s.(producer := pc)) == Contents(s)
  {
  }

  lemma ConsumerGotoInv<T>(s: State<T>, pc: Pc<T>)
    requires Inv(s) && !s.consumer.PopRelease? && ConsumerOk(s.(consumer := pc)) && !pc.PopRelease?
    ensures Inv(s.(consumer := pc)) && Contents(s.(consumer := pc)) == Contents(s)
  {
  }

  lemma LocalProducerInv<T>(s: State<T>, e: Event<T>)
    requires Inv(s) && e.role.Producer? && IsLocal(s.producer)
    ensures Inv(Step(s, e)) && Contents(Step(s, e)) == Contents(s)
  {
    FullTest(s);
    match s.producer
    case PushLoadWrite(x) => ProducerGotoInv(s, PushLoadRead(x, s.writePos));
    case PushLoadRead(x, w) => ProducerGotoInv(s, Step(s, e).producer);
    case SizeLoadWrite => ProducerGotoInv(s, SizeLoadRead(s.writePos));
    case SizeLoadRead(w) => ProducerGotoInv(s, Returned(SizeDone(SizeOf(w, s.readPos, |s.buffer|))));
    case _ => ProducerGotoInv(s, Invoke(e));
  }

  lemma LocalConsumerInv<T>(s: State<T>, e: Event<T>)
    requires Inv(s) && e.role.Consumer? && IsLocal(s.consumer)
    ensures Inv(Step(s, e)) && Contents(Step(s, e)) == Contents(s)
  {
    EmptyTest(s);
    match s.consumer
    case PopLoadRead => ConsumerGotoInv(s, PopLoadWrite(s.readPos));
    case PopLoadWrite(_) => ConsumerGotoInv(s, Step(s, e).consumer);
    case SizeLoadWrite => ConsumerGotoInv(s, SizeLoadRead(s.writePos));
    case SizeLoadRead(w) => ConsumerGotoInv(s, Returned(SizeDone(SizeOf(w, s.readPos, |s.buffer|))));
    case _ => ConsumerGotoInv(s, Invoke(e));
  }

  lemma ObserverInv<T>(s: State<T>, e: Event<T>)
    requires Inv(s) && e.role.Observer?
    ensures Inv(Step(s, e)) && Contents(Step(s, e)) == Contents(s)
  {
    var pc' := Step(s, e).observer;
    assert pc'.SizeLoadWrite? || pc'.SizeLoadRead? || pc'.Returned?;
    assert Step(s, e) == s.(observer := pc');
  }

  lemma LocalStepInv<T>(s: State<T>, e: Event<T>)
    requires Inv(s) && IsLocal(At(s, e.role))
    ensures Inv(Step(s, e)) && Contents(Step(s, e)) == Contents(s)
  {
    match e.role
    case Producer => LocalProducerInv(s, e);
    case Consumer => LocalConsumerInv(s, e);
    case Observer => ObserverInv(s, e);
  }

  lemma StepInv<T>(s: State<T>, e: Event<T>)
    requires Inv(s)
    ensures Inv(Step(s, e))
  {
    var pc := At(s, e.role);
    if pc.PushStore? {
      PushStoreInv(s, e);
    } else if pc.PushPublish? {
      PushPublishInv(s, e);
    } else if pc.PopMove? {
      PopMoveInv(s, e);
    } else if pc.PopRelease? {
      PopReleaseInv(s, e);
    } else {
      LocalStepInv(s, e);
    }
  }

  lemma {:induction false} RunInv<T>(s: State<T>, es: seq<Event<T>>)
    requires Inv(s)
    ensures Inv(Run(s, es))
    decreases |es|
  {
    if es == [] {
    } else {
      RunInv(s, es[..|es| - 1]);
      StepInv(Run(s, es[..|es| - 1]), es[|es| - 1]);
    }
  }

  ghost predicate Reached<T(!new)>(s: State<T>, c: nat) {
    c > 0 && exists es: seq<Event<T>> :: Run(Init(c), es) == s
  }

  lemma ReachedInv<T(!new)>(s: State<T>, c: nat)
    requires Reached(s, c)
    ensures Inv(s) && |s.buffer| == c
  {
    var es: seq<Event<T>> :| Run(Init(c), es) == s;
    InitInv<T>(c);
    RunInv(Init(c), es);
  }

  // ---------- what callers may rely on ----------

  lemma SharedFifo<T>(s: State<T>)
    requires Shared(s)
    ensures s.popped + Contents(s) == s.pushed && |Contents(s)| <= |s.buffer| - 1
  {
  }

  /** What was popped followed by what is inside is what was pushed, and at most `c - 1` items are inside. */
  lemma Fifo<T(!new)>(s: State<T>, c: nat)
    requires Reached(s, c)
    ensures s.popped + Contents(s) == s.pushed && |Contents(s)| <= c - 1
  {
    ReachedInv(s, c);
    SharedFifo(s);
  }

  /**
   Each step appends the item of the Push that returns true, removes the oldest for the Pop that returns it, or
   keeps the queue.
   */
  lemma StepRefinesFifo<T(!new)>(s: State<T>, c: nat, e: Event<T>)
    requires Reached(s, c)
    ensures var s', pc := Step(s, e), At(s, e.role);
            if pc.PushPublish? then
              At(s', e.role) == Returned(PushDone(true)) && Contents(s') == Contents(s) + [pc.x] &&
              |Contents(s)| < c - 1
            else if pc.PopRelease? then
              Contents(s) != [] && At(s', e.role) == Returned(PopDone(Some(Contents(s)[0]))) &&
              Contents(s') == Contents(s)[1..]
            else Contents(s') == Contents(s)
  {
    ReachedInv(s, c);
    var pc := At(s, e.role);
    if pc.PushPublish? {
      PushPublishInv(s, e);
    } else if pc.PopRelease? {
      PopReleaseInv(s, e);
    } else if !pc.PushStore? && !pc.PopMove? {
      LocalStepInv(s, e);
    }
  }

  /**
   Push reports full exactly when it is full, and Pop reports empty exactly when it is empty, at the other index's
   load.
   */
  lemma FailuresAreExact<T(!new)>(s: State<T>, c: nat, e: Event<T>)
    requires Reached(s, c)
    ensures At(s, e.role).PushLoadRead? ==>
              (At(Step(s, e), e.role) == Returned(PushDone(false)) <==> |Contents(s)| == c - 1)
    ensures At(s, e.role).PopLoadWrite? ==>
              (At(Step(s, e), e.role) == Returned(PopFailed) <==> Contents(s) == [])
  {
    ReachedInv(s, c);
    FullTest(s);
    EmptyTest(s);
  }

  /** The cell a Push is writing holds no item a Pop could read, and no Pop is at that cell. */
  lemma WrittenCellIsUnreadable<T(!new)>(s: State<T>, c: nat)
    requires Reached(s, c) && (s.producer.PushStore? || s.producer.PushPublish?)
    ensures forall p | |s.popped| <= p < |s.pushed| :: Slot(p, c) != s.producer.w
    ensures s.consumer.PopMove? || s.consumer.PopRelease? ==> s.consumer.r != s.producer.w
  {
    ReachedInv(s, c);
    forall p | |s.popped| <= p < |s.pushed| ensures Slot(p, c) != s.producer.w {
      SlotDistinct(p, |s.pushed|, c);
    }
  }

  function StepsLeft<T>(pc: Pc<T>): nat {
    match pc
    case Idle | Returned(_) => 0
    case PushLoadWrite(_) => 4
    case PushLoadRead(_, _) => 3
    case PushStore(_, _) => 2
    case PushPublish(_, _) => 1
    case PopLoadRead => 4
    case PopLoadWrite(_) => 3
    case PopMove(_) => 2
    case PopRelease(_, _) => 1
    case SizeLoadWrite => 2
    case SizeLoadRead(_) => 1
  }

  predicate InCall<T>(pc: Pc<T>) {
    !pc.Idle? && !pc.Returned?
  }

  /** Each of a thread's own steps brings its call nearer the end, and no step of another changes where it stands. */
  lemma NearsItsEnd<T>(s: State<T>, e: Event<T>, role: Role)
    requires |s.buffer| > 0 && InCall(At(s, role))
    ensures e.role == role ==> StepsLeft(At(Step(s, e), role)) < StepsLeft(At(s, role)) <= 4
    ensures e.role != role ==> At(Step(s, e), role) == At(s, role)
    ensures !At(Step(s, e), role).Idle?
  {
  }

  /** How often that role moves in a schedule. */
  function Moves<T>(es: seq<Event<T>>, role: Role): nat {
    if es == [] then 0 else Moves(es[..|es| - 1], role) + if es[|es| - 1].role == role then 1 else 0
  }

  /** After some prefix of the schedule the call has returned. */
  ghost predicate HasReturned<T>(s: State<T>, role: Role, es: seq<Event<T>>)
    requires |s.buffer| > 0
  {
    exists n :: 0 <= n <= |es| && At(Run(s, es[..n]), role).Returned?
  }

  lemma {:induction false} ReturnedOrNearer<T>(s: State<T>, role: Role, es: seq<Event<T>>)
    requires |s.buffer| > 0 && InCall(At(s, role))
    ensures || HasReturned(s, role, es)
            || (InCall(At(Run(s, es), role)) &&
                StepsLeft(At(Run(s, es), role)) + Moves(es, role) <= StepsLeft(At(s, role)))
    decreases |es|
  {
    if es == [] {
    } else {
      var before := es[..|es| - 1];
      ReturnedOrNearer(s, role, before);
      if HasReturned(s, role, before) {
        var n :| 0 <= n <= |before| && At(Run(s, before[..n]), role).Returned?;
        assert es[..n] == before[..n];
      } else {
        NearsItsEnd(Run(s, before), es[|es| - 1], role);
        assert es[..|es|] == es;
      }
    }
  }

  /** Wait freedom: every schedule in which a thread moves four times takes its call to the end. */
  lemma WaitFree<T>(s: State<T>, role: Role, es: seq<Event<T>>)
    requires |s.buffer| > 0 && InCall(At(s, role)) && Moves(es, role) >= 4
    ensures HasReturned(s, role, es)
  {
    ReturnedOrNearer(s, role, es);
  }
}
