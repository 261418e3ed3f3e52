/** The stack linearizes to a sequential stack over every schedule. */
module StackProof {
  import opened Prelude
  import opened Stack

  function First(chain: seq<nat>): Ptr {
    if chain == [] then Null else Ref(chain[0])
  }

  /** `chain` is what a walk from `head` along `next` visits. */
  ghost predicate Linked<T>(nodes: seq<Node<T>>, head: Ptr, chain: seq<nat>) {
    && head == First(chain)
    && (forall i | 0 <= i < |chain| :: chain[i] < |nodes| && nodes[chain[i]].data.Some?)
    && (forall i | 0 <= i < |chain| :: nodes[chain[i]].next == First(chain[i + 1..]))
    && (forall i, j | 0 <= i < j < |chain| :: chain[i] != chain[j])
  }

  ghost predicate Published<T>(s: State<T>, n: nat) {
    n < |s.nodes| && (n in s.chain || n in s.winner)
  }

  /** A node only its allocating thread knows. */
  ghost predicate Private<T>(s: State<T>, t: Tid, n: nat, x: T) {
    && n < |s.nodes| && n < |s.maker| && n !in s.chain && n !in s.winner && s.maker[n] == t
    && s.nodes[n].data == Some(x)
  }

  /** The call in progress has no entry in the log yet. */
  ghost predicate NoEntry<T>(s: State<T>, t: Tid) {
    forall k | Began(s, t) <= k < |s.log| :: s.log[k].tid != t
  }

  /** The call has exactly one entry in the log, made since it began. */
  ghost predicate OneEntry<T>(s: State<T>, t: Tid, entry: nat) {
    && Began(s, t) <= entry < |s.log| && s.log[entry].tid == t
    && forall k | Began(s, t) <= k < |s.log| && k != entry :: s.log[k].tid != t
  }

  ghost predicate Matches<T>(outcome: Outcome<T>, op: Op<T>) {
    match outcome
    case Pushed(item) => op.DidPush? && op.item == item
    case Got(got) => op.DidPop? && got.Some? && op.got == got
    case WasEmpty => op.FoundEmpty?
  }

  ghost predicate ThreadOk<T>(s: State<T>, t: Tid) {
    && Began(s, t) <= |s.log|
    && match At(s, t)
       case Idle => true
       case PushAlloc(_) => NoEntry(s, t)
       case PushLoad(x, n) => NoEntry(s, t) && Private(s, t, n, x)
       case PushLink(x, n, _) => NoEntry(s, t) && Private(s, t, n, x)
       case PushCas(x, n, expected) => NoEntry(s, t) && Private(s, t, n, x) && s.nodes[n].next == expected
       case PopLoad => NoEntry(s, t)
       case PopReadNext(cur) => NoEntry(s, t) && Published(s, cur)
       case PopCas(cur, next) => NoEntry(s, t) && Published(s, cur) && s.nodes[cur].next == next
       case PopTake(cur, entry) =>
         && OneEntry(s, t, entry) && cur < |s.nodes| && cur in s.winner && s.winner[cur] == t
         && s.nodes[cur].data.Some? && s.log[entry] == DidPop(t, s.nodes[cur].data)
       case Returned(outcome, entry) => OneEntry(s, t, entry) && Matches(outcome, s.log[entry])
  }

  ghost predicate Shared<T>(s: State<T>) {
    && Linked(s.nodes, s.head, s.chain)
    && |s.maker| == |s.nodes|
    && (forall n | n in s.winner :: n < |s.nodes| && n !in s.chain)
    && Replay(s.log) == Some(Items(s.nodes, s.chain))
  }

  ghost predicate Inv<T>(s: State<T>) {
    Shared(s) && forall t :: ThreadOk(s, t)
  }

  // ---------- every step keeps the invariant ----------

  lemma ReplaySnoc<T>(log: seq<Op<T>>, op: Op<T>)
    ensures (log + [op])[..|log|] == log
    ensures Replay(log + [op]) ==
            match (Replay(log), op)
            case (None, _) => None
            case (Some(items), DidPush(_, x)) => Some([x] + items)
            case (Some(items), DidPop(_, got)) =>
              if items != [] && got == Some(items[0]) then Some(items[1..]) else None
            case (Some(items), FoundEmpty(_)) => if items == [] then Some([]) else None
  {
    assert (log + [op])[..|log|] == log;
  }

  /** Steps that only move the stepping thread. */
  lemma GotoInv<T>(s: State<T>, t: Tid, pc: Pc<T>)
    requires Inv(s) && ThreadOk(Goto(s, t, pc), t)
    ensures Inv(Goto(s, t, pc))
  {
    var s' := Goto(s, t, pc);
    forall u ensures ThreadOk(s', u) {
      assert ThreadOk(s, u);
    }
  }

  lemma InvokeInv<T>(s: State<T>, e: Event<T>)
    requires Inv(s) && (At(s, e.tid).Idle? || At(s, e.tid).Returned?)
    ensures Inv(Step(s, e))
  {
    var s' := Step(s, e);
    forall u ensures ThreadOk(s', u) {
      assert ThreadOk(s, u);
    }
  }

  lemma AllocInv<T>(s: State<T>, e: Event<T>)
    requires Inv(s) && At(s, e.tid).PushAlloc?
    ensures Inv(Step(s, e))
  {
    var s' := Step(s, e);
    forall u ensures ThreadOk(s', u) {
      assert ThreadOk(s, u);
    }
    ItemsFrame(s.nodes, s'.nodes, s.chain);
  }

  lemma LinkKeepsOthers<T>(s: State<T>, e: Event<T>, u: Tid)
    requires Inv(s) && At(s, e.tid).PushLink? && u != e.tid
    ensures ThreadOk(Step(s, e), u)
  {
    assert ThreadOk(s, e.tid) && ThreadOk(s, u);
  }

  lemma LinkInv<T>(s: State<T>, e: Event<T>)
    requires Inv(s) && At(s, e.tid).PushLink?
    ensures Inv(Step(s, e))
  {
    var s', t := Step(s, e), e.tid;
    assert ThreadOk(s, t);
    forall u ensures ThreadOk(s', u) {
      if u != t {
        LinkKeepsOthers(s, e, u);
      }
    }
    ItemsFrame(s.nodes, s'.nodes, s.chain);
  }

  /** Items depend only on the data of the chained nodes. */
  lemma {:induction false} ItemsFrame<T>(nodes: seq<Node<T>>, nodes': seq<Node<T>>, chain: seq<nat>)
    requires forall i | 0 <= i < |chain| :: chain[i] < |nodes| && nodes[chain[i]].data.Some?
    requires forall i | 0 <= i < |chain| ::
               chain[i] < |nodes'| && nodes'[chain[i]].data == nodes[chain[i]].data
    ensures Items(nodes', chain) == Items(nodes, chain)
    decreases |chain|
  {
    if chain == [] {
    } else {
      ItemsFrame(nodes, nodes', chain[1..]);
    }
  }

  /** What a step that appends one operation of `t` to the log must leave alone for the other threads. */
  ghost predicate Appends<T>(s: State<T>, s': State<T>, t: Tid, op: Op<T>) {
    && s'.nodes == s.nodes && s'.maker == s.maker && s'.began == s.began
    && s'.log == s.log + [op] && op.tid == t
    && (forall u | u != t :: At(s', u) == At(s, u))
    && (forall n | n in s.winner :: n in s'.winner && s'.winner[n] == s.winner[n])
    && (forall n | n in s.chain :: n in s'.chain || n in s'.winner)
    && (forall n | n in s'.chain || n in s'.winner ::
          n in s.chain || n in s.winner || (n < |s.maker| && s.maker[n] == t))
  }

  lemma AppendKeepsOthers<T>(s: State<T>, s': State<T>, t: Tid, op: Op<T>, u: Tid)
    requires Appends(s, s', t, op) && u != t && ThreadOk(s, u)
    ensures ThreadOk(s', u)
  {
  }

  lemma PushedInv<T>(s: State<T>, e: Event<T>)
    requires Inv(s) && At(s, e.tid).PushCas? && s.head == At(s, e.tid).expected && !e.spurious
    ensures Inv(Step(s, e))
    ensures Items(Step(s, e).nodes, Step(s, e).chain) == [At(s, e.tid).x] + Items(s.nodes, s.chain)
  {
    var s', t, n := Step(s, e), e.tid, At(s, e.tid).n;
    var op := DidPush(t, At(s, t).x);
    assert ThreadOk(s, t);
    assert s'.chain[1..] == s.chain;
    PushLinked(s.nodes, s.head, s.chain, n);
    ReplaySnoc(s.log, op);
    assert Appends(s, s', t, op);
    forall u ensures ThreadOk(s', u) {
      assert ThreadOk(s, u);
      if u != t {
        AppendKeepsOthers(s, s', t, op, u);
      }
    }
  }

  lemma PushLinked<T>(nodes: seq<Node<T>>, head: Ptr, chain: seq<nat>, n: nat)
    requires Linked(nodes, head, chain) && n < |nodes| && n !in chain
    requires nodes[n].next == head && nodes[n].data.Some?
    ensures Linked(nodes, Ref(n), [n] + chain)
  {
    var chain' := [n] + chain;
    forall i | 0 <= i < |chain'| ensures nodes[chain'[i]].next == First(chain'[i + 1..]) {
      if i == 0 {
        assert chain'[1..] == chain;
      } else {
        assert chain'[i + 1..] == chain[i..];
      }
    }
  }

  lemma PopLinked<T>(nodes: seq<Node<T>>, head: Ptr, chain: seq<nat>)
    requires Linked(nodes, head, chain) && chain != []
    ensures Linked(nodes, nodes[chain[0]].next, chain[1..])
    ensures chain[0] !in chain[1..]
  {
    var chain' := chain[1..];
    forall i | 0 <= i < |chain'| ensures nodes[chain'[i]].next == First(chain'[i + 1..]) {
      assert chain'[i + 1..] == chain[i + 2..];
    }
  }

  lemma PoppedInv<T>(s: State<T>, e: Event<T>)
    requires Inv(s) && At(s, e.tid).PopCas? && s.head == Ref(At(s, e.tid).cur) && !e.spurious
    ensures Inv(Step(s, e))
    ensures s.chain != [] && s.chain[0] == At(s, e.tid).cur && Step(s, e).chain == s.chain[1..]
  {
    var s', t, cur := Step(s, e), e.tid, At(s, e.tid).cur;
    var op := DidPop(t, s.nodes[cur].data);
    assert ThreadOk(s, t);
    assert s.chain[0] == cur;
    PopLinked(s.nodes, s.head, s.chain);
    ReplaySnoc(s.log, op);
    assert Appends(s, s', t, op);
    forall u ensures ThreadOk(s', u) {
      assert ThreadOk(s, u);
      if u != t {
        AppendKeepsOthers(s, s', t, op, u);
      }
    }
  }

  lemma SawEmptyInv<T>(s: State<T>, t: Tid)
    requires Inv(s) && NoEntry(s, t) && s.head == Null
    ensures Inv(PopSaw(s, t))
  {
    var s', op := PopSaw(s, t), FoundEmpty(t);
    assert ThreadOk(s, t);
    ReplaySnoc(s.log, op);
    assert Appends(s, s', t, op);
    forall u ensures ThreadOk(s', u) {
      assert ThreadOk(s, u);
      if u != t {
        AppendKeepsOthers(s, s', t, op, u);
      }
    }
  }

  lemma TakeInv<T>(s: State<T>, e: Event<T>)
    requires Inv(s) && At(s, e.tid).PopTake?
    ensures Inv(Step(s, e))
  {
    var s', t := Step(s, e), e.tid;
    assert ThreadOk(s, t);
    forall u ensures ThreadOk(s', u) {
      assert ThreadOk(s, u);
    }
    ItemsFrame(s.nodes, s'.nodes, s.chain);
  }

  lemma StepInv<T>(s: State<T>, e: Event<T>)
    requires Inv(s)
    ensures Inv(Step(s, e))
  {
    var t := e.tid;
    assert ThreadOk(s, t);
    match At(s, t)
    case Idle => InvokeInv(s, e);
    case Returned(_, _) => InvokeInv(s, e);
    case PushAlloc(_) => AllocInv(s, e);
    case PushLoad(x, n) => GotoInv(s, t, PushLink(x, n, s.head));
    case PushLink(_, _, _) => LinkInv(s, e);
    case PushCas(x, n, expected) =>
      if s.head == expected && !e.spurious {
        PushedInv(s, e);
      } else {
        GotoInv(s, t, PushLink(x, n, s.head));
      }
    case PopLoad =>
      if s.head == Null {
        SawEmptyInv(s, t);
      } else {
        GotoInv(s, t, PopReadNext(s.head.id));
      }
    case PopReadNext(cur) => GotoInv(s, t, PopCas(cur, Read(s.nodes, cur).next));
    case PopCas(cur, _) =>
      if s.head == Ref(cur) && !e.spurious {
        PoppedInv(s, e);
      } else if s.head == Null {
        SawEmptyInv(s, t);
      } else {
        GotoInv(s, t, PopReadNext(s.head.id));
      }
    case PopTake(_, _) => TakeInv(s, e);
  }

  lemma InitInv<T>()
    ensures Inv(Init<T>())
  {
  }

  lemma {:induction false} RunInv<T>(es: seq<Event<T>>)
    ensures Inv(Run(Init<T>(), es))
    decreases |es|
  {
    if es == [] {
      InitInv<T>();
    } else {
      RunInv(es[..|es| - 1]);
      StepInv(Run(Init<T>(), es[..|es| - 1]), es[|es| - 1]);
    }
  }
}
