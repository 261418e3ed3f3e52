/** What callers of the stack may rely on, and the stack object itself. */
module StackTheorems {
  import opened Prelude
  import opened Stack
  import opened StackProof

  ghost predicate Reached<T(!new)>(s: State<T>) {
    exists es: seq<Event<T>> :: Run(Init<T>(), es) == s
  }

  lemma ReachedInv<T(!new)>(s: State<T>)
    requires Reached(s)
    ensures Inv(s)
  {
    var es: seq<Event<T>> :| Run(Init<T>(), es) == s;
    RunInv(es);
  }

  /**
   Linearizability: the log is a legal history of a sequential stack ending with the items reachable now, and
   every returned call has exactly one entry in it, its own, made while the call was running, with the result
   the call reported.
   */
  lemma Linearizes<T(!new)>(s: State<T>)
    requires Reached(s)
    ensures Linked(s.nodes, s.head, s.chain) && Replay(s.log) == Some(Items(s.nodes, s.chain))
    ensures forall t | At(s, t).Returned? ::
              OneEntry(s, t, At(s, t).entry) && Matches(At(s, t).outcome, s.log[At(s, t).entry])
  {
    ReachedInv(s);
    forall t | At(s, t).Returned?
      ensures OneEntry(s, t, At(s, t).entry) && Matches(At(s, t).outcome, s.log[At(s, t).entry])
    {
      assert ThreadOk(s, t);
    }
  }

  lemma ItemsSnoc<T>(log: seq<Op<T>>, op: Op<T>)
    ensures PushedItems(log + [op]) == PushedItems(log) + if op.DidPush? then multiset{op.item} else multiset{}
    ensures PoppedItems(log + [op]) ==
            PoppedItems(log) + if op.DidPop? && op.got.Some? then multiset{op.got.value} else multiset{}
  {
    assert (log + [op])[..|log|] == log;
  }

  lemma LegalPush<T>(log: seq<Op<T>>, op: Op<T>)
    requires Replay(log).Some? && PushedItems(log) == PoppedItems(log) + multiset(Replay(log).value) && op.DidPush?
    ensures Replay(log + [op]).Some?
    ensures PushedItems(log + [op]) == PoppedItems(log + [op]) + multiset(Replay(log + [op]).value)
  {
    ReplaySnoc(log, op);
    ItemsSnoc(log, op);
    assert multiset([op.item] + Replay(log).value) == multiset{op.item} + multiset(Replay(log).value);
  }

  lemma LegalPop<T>(log: seq<Op<T>>, op: Op<T>)
    requires Replay(log).Some? && PushedItems(log) == PoppedItems(log) + multiset(Replay(log).value) && !op.DidPush?
    requires Replay(log + [op]).Some?
    ensures PushedItems(log + [op]) == PoppedItems(log + [op]) + multiset(Replay(log + [op]).value)
  {
    var items := Replay(log).value;
    ReplaySnoc(log, op);
    ItemsSnoc(log, op);
    if op.DidPop? {
      assert items == [items[0]] + items[1..];
    }
  }

  lemma {:induction false} LegalConserves<T>(log: seq<Op<T>>)
    requires Replay(log).Some?
    ensures PushedItems(log) == PoppedItems(log) + multiset(Replay(log).value)
    decreases |log|
  {
    if log == [] {
    } else {
      var before, op := log[..|log| - 1], log[|log| - 1];
      assert log == before + [op];
      ReplaySnoc(before, op);
      LegalConserves(before);
      if op.DidPush? {
        LegalPush(before, op);
      } else {
        LegalPop(before, op);
      }
    }
  }

  /** What was pushed is what was popped together with what is reachable. */
  lemma PushedIsPoppedPlusContents<T(!new)>(s: State<T>)
    requires Reached(s)
    ensures Linked(s.nodes, s.head, s.chain)
    ensures PushedItems(s.log) == PoppedItems(s.log) + multiset(Items(s.nodes, s.chain))
  {
    ReachedInv(s);
    LegalConserves(s.log);
  }

  /** A published node stays published with the same link, its winner is final, and the log only grows. */
  ghost predicate Stable<T>(s: State<T>, s': State<T>) {
    && s.log <= s'.log
    && |s.nodes| <= |s'.nodes|
    && (forall n: nat | Published(s, n) :: Published(s', n) && s'.nodes[n].next == s.nodes[n].next)
    && (forall n | n in s.winner :: n in s'.winner && s'.winner[n] == s.winner[n])
  }

  lemma PopStable<T>(s: State<T>, e: Event<T>)
    requires Inv(s) && At(s, e.tid).PopCas? && s.head == Ref(At(s, e.tid).cur) && !e.spurious
    ensures Stable(s, Step(s, e))
  {
    assert ThreadOk(s, e.tid);
    PoppedInv(s, e);
    forall n: nat | Published(s, n) ensures Published(Step(s, e), n) {
      if n in s.chain && n != s.chain[0] {
        assert n in s.chain[1..];
      }
    }
  }

  /** A step that rewrites at most one node, and no published link, is stable. */
  lemma RewriteStable<T>(s: State<T>, s': State<T>, n: nat)
    requires n < |s.nodes| && |s'.nodes| == |s.nodes|
    requires forall i | 0 <= i < |s.nodes| && i != n :: s'.nodes[i] == s.nodes[i]
    requires s'.nodes[n].next == s.nodes[n].next || !Published(s, n)
    requires s'.chain == s.chain && s'.winner == s.winner && s'.log == s.log
    ensures Stable(s, s')
  {
  }

  /** A step that takes nothing off the chain and keeps the nodes is stable. */
  lemma GrowStable<T>(s: State<T>, s': State<T>)
    requires s.nodes <= s'.nodes && s.log <= s'.log && s'.winner == s.winner
    requires s'.chain == s.chain || (s'.chain != [] && s'.chain[1..] == s.chain)
    ensures Stable(s, s')
  {
    forall n: nat | Published(s, n) ensures Published(s', n) {
      if s'.chain != s.chain && n in s.chain {
        assert n in s'.chain[1..];
      }
    }
  }

  lemma StepStable<T>(s: State<T>, e: Event<T>)
    requires Inv(s)
    ensures Stable(s, Step(s, e))
  {
    var pc := At(s, e.tid);
    if pc.PopCas? && s.head == Ref(pc.cur) && !e.spurious {
      PopStable(s, e);
    } else if pc.PushLink? {
      assert ThreadOk(s, e.tid);
      RewriteStable(s, Step(s, e), pc.n);
    } else if pc.PopTake? {
      assert ThreadOk(s, e.tid);
      RewriteStable(s, Step(s, e), pc.cur);
    } else {
      GrowStable(s, Step(s, e));
    }
  }

  /** No later schedule relinks a published node or lets a second Pop win it. */
  lemma {:induction false} PublishedNodesNeverChange<T>(s: State<T>, es: seq<Event<T>>)
    requires Inv(s)
    ensures Inv(Run(s, es)) && Stable(s, Run(s, es))
    decreases |es|
  {
    if es == [] {
    } else {
      PublishedNodesNeverChange(s, es[..|es| - 1]);
      StepStable(Run(s, es[..|es| - 1]), es[|es| - 1]);
      StepInv(Run(s, es[..|es| - 1]), es[|es| - 1]);
    }
  }

  /**
   A successful Pop takes the top node, installs its true successor however old the read was, and is its first
   winner.
   */
  lemma NoAba<T(!new)>(s: State<T>, e: Event<T>)
    requires Reached(s) && At(s, e.tid).PopCas? && At(Step(s, e), e.tid).PopTake?
    ensures var cur := At(s, e.tid).cur;
            && s.chain != [] && s.chain[0] == cur && cur !in s.winner
            && Step(s, e).head == First(s.chain[1..]) && Step(s, e).winner == s.winner[cur := e.tid]
  {
    ReachedInv(s);
    assert ThreadOk(s, e.tid);
    PoppedInv(s, e);
  }

  // ---------- progress ----------

  /** Where a call stands on a head it has read: on its way to the compare-exchange with it. */
  predicate Carries<T>(pc: Pc<T>, head: Ptr) {
    match pc
    case PushLink(_, _, expected) => expected == head
    case PushCas(_, _, expected) => expected == head
    case PopReadNext(cur) => Ref(cur) == head
    case PopCas(cur, _) => Ref(cur) == head
    case _ => false
  }

  /** All through the schedule `t` relies on the head it has read in `s`. */
  ghost predicate KeepsItsRead<T>(s: State<T>, t: Tid, es: seq<Event<T>>) {
    forall n | 0 <= n <= |es| :: Carries(At(Run(s, es[..n]), t), s.head)
  }

  /** Between the two states a Push or Pop of another thread took effect. */
  ghost predicate OtherOperation<T>(s: State<T>, s': State<T>, t: Tid) {
    exists k :: |s.log| <= k < |s'.log| && s'.log[k].tid != t && !s'.log[k].FoundEmpty?
  }

  /** Where a failed compare-exchange leads: to the next attempt, or for Pop to giving up on an empty stack. */
  predicate HasFailed<T>(pc: Pc<T>) {
    pc.PushLink? || pc.PopReadNext? || (pc.Returned? && pc.outcome.WasEmpty?)
  }

  lemma LogGrows<T>(s: State<T>, e: Event<T>)
    ensures s.log <= Step(s, e).log
  {
  }

  /** Only a Push or a Pop that takes effect moves the head. */
  lemma HeadMover<T>(s: State<T>, e: Event<T>)
    requires Step(s, e).head != s.head
    ensures At(s, e.tid).PushCas? || At(s, e.tid).PopCas?
    ensures Step(s, e).log == s.log + [if At(s, e.tid).PushCas? then DidPush(e.tid, At(s, e.tid).x)
                                       else DidPop(e.tid, Read(s.nodes, At(s, e.tid).cur).data)]
  {
    var pc := At(s, e.tid);
    if pc.PushCas? {
    } else if pc.PopCas? {
    } else {
    }
  }

  /** And it is logged. */
  lemma HeadStep<T>(s: State<T>, e: Event<T>)
    ensures s.log <= Step(s, e).log
    ensures Step(s, e).head != s.head ==>
              && |Step(s, e).log| == |s.log| + 1 && Step(s, e).log[|s.log|].tid == e.tid
              && !Step(s, e).log[|s.log|].FoundEmpty?
  {
    LogGrows(s, e);
    if Step(s, e).head != s.head {
      HeadMover(s, e);
    }
  }

  lemma MoverLetsGo<T>(s: State<T>, e: Event<T>, head: Ptr)
    requires Step(s, e).head != s.head
    ensures !Carries(At(Step(s, e), e.tid), head)
  {
  }

  lemma {:induction false} HeadChanged<T>(s: State<T>, t: Tid, es: seq<Event<T>>)
    requires KeepsItsRead(s, t, es)
    ensures s.log <= Run(s, es).log
    ensures Run(s, es).head != s.head ==> OtherOperation(s, Run(s, es), t)
    decreases |es|
  {
    if es == [] {
    } else {
      var before, e := es[..|es| - 1], es[|es| - 1];
      forall n | 0 <= n <= |before| ensures Carries(At(Run(s, before[..n]), t), s.head) {
        assert before[..n] == es[..n];
      }
      HeadChanged(s, t, before);
      HeadStep(Run(s, before), e);
      assert es[..|es|] == es;
      if Run(s, before).head != s.head {
        var k :| |s.log| <= k < |Run(s, before).log| && Run(s, before).log[k].tid != t &&
                 !Run(s, before).log[k].FoundEmpty?;
        assert Run(s, es).log[k] == Run(s, before).log[k];
      } else if Run(s, es).head != s.head {
        if e.tid == t {
          MoverLetsGo(Run(s, before), e, s.head);
        }
        assert Run(s, es).log[|Run(s, before).log|].tid == e.tid;
      }
    }
  }

  /**
   Lock freedom: a compare-exchange that fails, and not spuriously, was overtaken by another operation since the
   read.
   */
  lemma RetryMeansProgress<T>(s: State<T>, t: Tid, es: seq<Event<T>>, e: Event<T>)
    requires KeepsItsRead(s, t, es) && e.tid == t && !e.spurious
    requires At(Run(s, es), t).PushCas? || At(Run(s, es), t).PopCas?
    requires HasFailed(At(Step(Run(s, es), e), t))
    ensures OtherOperation(s, Run(s, es), t)
  {
    HeadChanged(s, t, es);
    assert es[..|es|] == es;
  }

  /** An upper bound on the steps a call still needs if left alone with no spurious failure. */
  function StepsLeft<T>(s: State<T>, t: Tid): nat {
    match At(s, t)
    case Idle | Returned(_, _) => 0
    case PushAlloc(_) => 4
    case PushLoad(_, _) => 3
    case PushLink(_, _, expected) => if expected == s.head then 2 else 4
    case PushCas(_, _, expected) => if expected == s.head then 1 else 3
    case PopLoad => 4
    case PopReadNext(cur) => if s.head == Ref(cur) then 3 else 5
    case PopCas(cur, _) => if s.head == Ref(cur) then 2 else 4
    case PopTake(_, _) => 1
  }

  predicate InCall<T>(pc: Pc<T>) {
    !pc.Idle? && !pc.Returned?
  }

  lemma NearsItsEnd<T>(s: State<T>, e: Event<T>)
    requires !e.spurious && InCall(At(s, e.tid))
    ensures StepsLeft(Step(s, e), e.tid) < StepsLeft(s, e.tid) <= 5
    ensures !At(Step(s, e), e.tid).Idle?
  {
    var pc := At(Step(s, e), e.tid);
    assert pc == Step(s, e).pcs[e.tid];
  }

  /** Only `t` moves, and no compare-exchange fails spuriously. */
  ghost predicate Alone<T>(es: seq<Event<T>>, t: Tid) {
    forall k | 0 <= k < |es| :: es[k].tid == t && !es[k].spurious
  }

  /** After some prefix of the schedule the call has returned. */
  ghost predicate HasReturned<T>(s: State<T>, t: Tid, es: seq<Event<T>>) {
    exists n :: 0 <= n <= |es| && At(Run(s, es[..n]), t).Returned?
  }

  lemma {:induction false} ReturnedOrNearer<T>(s: State<T>, t: Tid, es: seq<Event<T>>)
    requires InCall(At(s, t)) && Alone(es, t)
    ensures || HasReturned(s, t, es)
            || (InCall(At(Run(s, es), t)) && StepsLeft(Run(s, es), t) + |es| <= StepsLeft(s, t))
    decreases |es|
  {
    if es == [] {
    } else {
      var before := es[..|es| - 1];
      ReturnedOrNearer(s, t, before);
      if HasReturned(s, t, before) {
        var n :| 0 <= n <= |before| && At(Run(s, before[..n]), t).Returned?;
        assert es[..n] == before[..n];
      } else {
        NearsItsEnd(Run(s, before), es[|es| - 1]);
        assert es[..|es|] == es;
      }
    }
  }

  /** Obstruction freedom: a call left alone returns within five steps, from any state at all. */
  lemma FinishesAlone<T>(s: State<T>, t: Tid, es: seq<Event<T>>)
    requires InCall(At(s, t)) && Alone(es, t) && |es| == 5
    ensures HasReturned(s, t, es)
  {
    ReturnedOrNearer(s, t, es);
    NearsItsEnd(s, es[0]);
  }

  // ---------- the object ----------

  class LockFreeStack<T> {
    var nodes: seq<Node<T>>
    var head: Ptr
    var pcs: map<Tid, Pc<T>>
    // names the log's next position for the calls that return; no branch depends on it
    var entries: nat
    ghost var chain: seq<nat>
    ghost var maker: seq<Tid>
    ghost var winner: map<nat, Tid>
    ghost var log: seq<Op<T>>
    ghost var began: map<Tid, nat>

    ghost function View(): (s: State<T>)
      reads this
    {
      State(nodes, head, pcs, chain, maker, winner, log, began)
    }

    ghost predicate Valid()
      reads this
    {
      Inv(View()) && entries == |log|
    }

    constructor ()
      ensures Valid() && View() == Init()
    {
      nodes, head, pcs, entries := [], Null, map[], 0;
      chain, maker, winner, log, began := [], [], map[], [], map[];
      new;
      InitInv<T>();
    }

    /** The thread of `e` performs its next access. */
    method Advance(e: Event<T>)
      requires Valid()
      modifies this
      ensures View() == Step(old(View()), e) && Valid()
    {
      StepInv(View(), e);
      assert ThreadOk(View(), e.tid);
      var pc := if e.tid in pcs then pcs[e.tid] else Idle;
      if pc.PopLoad? || pc.PopReadNext? || pc.PopCas? || pc.PopTake? {
        AdvancePop(e, pc);
      } else {
        AdvancePush(e, pc);
      }
    }

    method AdvancePush(e: Event<T>, pc: Pc<T>)
      requires pc == At(View(), e.tid) && !pc.PopLoad? && !pc.PopReadNext? && !pc.PopCas? && !pc.PopTake?
      requires entries == |log| && (pc.PushLink? ==> pc.n < |nodes|)
      modifies this
      ensures View() == Step(old(View()), e) && entries == |log|
    {
      var t := e.tid;
      match pc
      case Idle | Returned(_, _) =>
        began := began[t := |log|];
        pcs := pcs[t := if e.call.CallPush? then PushAlloc(e.call.item) else PopLoad];
      case PushAlloc(x) =>
        pcs := pcs[t := PushLoad(x, |nodes|)];
        nodes, maker := nodes + [Node(Some(x), Null)], maker + [t];
      case PushLoad(x, n) => pcs := pcs[t := PushLink(x, n, head)];
      case PushLink(x, n, expected) =>
        nodes := nodes[n := nodes[n].(next := expected)];
        pcs := pcs[t := PushCas(x, n, expected)];
      case PushCas(x, n, expected) =>
        if head == expected && !e.spurious {
          head := Ref(n);
          pcs := pcs[t := Returned(Pushed(x), entries)];
          chain, log, entries := [n] + chain, log + [DidPush(t, x)], entries + 1;
        } else {
          pcs := pcs[t := PushLink(x, n, head)];
        }
    }

    method AdvancePop(e: Event<T>, pc: Pc<T>)
      requires pc == At(View(), e.tid) && (pc.PopLoad? || pc.PopReadNext? || pc.PopCas? || pc.PopTake?)
      requires !pc.PopLoad? ==> pc.cur < |nodes|
      requires entries == |log| && (pc.PopCas? && head == Ref(pc.cur) ==> chain != [])
      modifies this
      ensures View() == Step(old(View()), e) && entries == |log|
    {
      var t := e.tid;
      match pc
      case PopLoad => SeeHead(t);
      case PopReadNext(cur) => pcs := pcs[t := PopCas(cur, nodes[cur].next)];
      case PopCas(cur, next) =>
        if head == Ref(cur) && !e.spurious {
          head := next;
          pcs := pcs[t := PopTake(cur, entries)];
          chain, winner := chain[1..], winner[cur := t];
          log, entries := log + [DidPop(t, nodes[cur].data)], entries + 1;
        } else {
          SeeHead(t);
        }
      case PopTake(cur, entry) =>
        pcs := pcs[t := Returned(Got(nodes[cur].data), entry)];
        nodes := nodes[cur := nodes[cur].(data := None)];
    }

    method SeeHead(t: Tid)
      requires entries == |log|
      modifies this
      ensures View() == PopSaw(old(View()), t) && entries == |log|
    {
      match head
      case Null =>
        pcs := pcs[t := Returned(WasEmpty, entries)];
        log, entries := log + [FoundEmpty(t)], entries + 1;
      case Ref(id) => pcs := pcs[t := PopReadNext(id)];
    }

    method Execute(es: seq<Event<T>>)
      requires Valid()
      modifies this
      ensures View() == Run(old(View()), es) && Valid()
    {
      ghost var start := View();
      for k := 0 to |es|
        invariant View() == Run(start, es[..k]) && Valid()
      {
        Advance(es[k]);
        assert es[..k + 1][..k] == es[..k];
      }
      assert es[..|es|] == es;
    }

    /** The destructor's walk: it frees each reachable node once, top first, and touches no freed or popped node. */
    method Destroy() returns (freed: seq<nat>)
      requires Valid()
      ensures freed == chain
      ensures forall i, j | 0 <= i < j < |freed| :: freed[i] != freed[j]
      ensures forall n | n in freed :: n < |nodes| && n !in winner
    {
      freed := [];
      var current := head;
      while current != Null
        invariant freed <= chain && current == First(chain[|freed|..])
        decreases |chain| - |freed|
      {
        assert current.id == chain[|freed|] && current.id !in freed;
        var next := nodes[current.id].next;
        freed := freed + [current.id];
        current := next;
      }
      assert freed == chain;
      assert forall n | n in chain :: n !in winner;
    }
  }
}
