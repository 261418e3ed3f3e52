/**
 The lock-free stack as a transition system.  Nodes live in an arena: an address is an index, and since
 `Pop` deletes nothing an address is never handed out twice.
 */
module Stack {
  import opened Prelude

  datatype Ptr = Null | Ref(id: nat)

  /** `data` is `None` once it has been moved out. */
  datatype Node<T> = Node(data: Option<T>, next: Ptr)

  datatype Call<T> = CallPush(item: T) | CallPop

  datatype Outcome<T> = Pushed(item: T) | Got(got: Option<T>) | WasEmpty

  datatype Pc<T> =
    | Idle
    | PushAlloc(x: T)
    | PushLoad(x: T, n: nat)
    | PushLink(x: T, n: nat, expected: Ptr)
    | PushCas(x: T, n: nat, expected: Ptr)
    | PopLoad
    | PopReadNext(cur: nat)
    | PopCas(cur: nat, next: Ptr)
    | PopTake(cur: nat, entry: nat)
    | Returned(outcome: Outcome<T>, entry: nat)

  /** One operation of a sequential stack, and the thread it belongs to. */
  datatype Op<T> = DidPush(tid: Tid, item: T) | DidPop(tid: Tid, got: Option<T>) | FoundEmpty(tid: Tid)

  /**
   The fields after `pcs` are history, read by no step: the node ids reachable from `head`, who allocated and
   who won each node, the operations in the order they took effect, and the length of that log when each
   thread's latest call began.
   */
  datatype State<T> = State(
    nodes: seq<Node<T>>,
    head: Ptr,
    pcs: map<Tid, Pc<T>>,
    chain: seq<nat>,
    maker: seq<Tid>,
    winner: map<nat, Tid>,
    log: seq<Op<T>>,
    began: map<Tid, nat>)

  datatype Event<T> = Event(tid: Tid, call: Call<T>, spurious: bool)

  function At<T>(s: State<T>, t: Tid): Pc<T> {
    if t in s.pcs then s.pcs[t] else Idle
  }

  function Began<T>(s: State<T>, t: Tid): nat {
    if t in s.began then s.began[t] else 0
  }

  function Init<T>(): State<T> {
    State([], Null, map[], [], [], map[], [], map[])
  }

  function Goto<T>(s: State<T>, t: Tid, pc: Pc<T>): State<T> {
    s.(pcs := s.pcs[t := pc])
  }

  function Read<T>(nodes: seq<Node<T>>, n: nat): Node<T> {
    if n < |nodes| then nodes[n] else Node(None, Null)
  }

  function Write<T>(nodes: seq<Node<T>>, n: nat, node: Node<T>): seq<Node<T>> {
    if n < |nodes| then nodes[n := node] else nodes
  }

  /** `Pop` holding a freshly read head: it gives up on null, otherwise goes on to read the link. */
  function PopSaw<T>(s: State<T>, t: Tid): State<T> {
    match s.head
    case Null => Goto(s, t, Returned(WasEmpty, |s.log|)).(log := s.log + [FoundEmpty(t)])
    case Ref(id) => Goto(s, t, PopReadNext(id))
  }

  function Step<T>(s: State<T>, e: Event<T>): State<T> {
    var t := e.tid;
    match At(s, t)
    case Idle | Returned(_, _) =>
      Goto(s, t, if e.call.CallPush? then PushAlloc(e.call.item) else PopLoad).(began := s.began[t := |s.log|])
    case PushAlloc(x) =>
      Goto(s, t, PushLoad(x, |s.nodes|)).(nodes := s.nodes + [Node(Some(x), Null)], maker := s.maker + [t])
    case PushLoad(x, n) => Goto(s, t, PushLink(x, n, s.head))
    case PushLink(x, n, expected) =>
      Goto(s, t, PushCas(x, n, expected)).(nodes := Write(s.nodes, n, Read(s.nodes, n).(next := expected)))
    case PushCas(x, n, expected) =>
      if s.head == expected && !e.spurious then
        Goto(s, t, Returned(Pushed(x), |s.log|)).(
          head := Ref(n), chain := [n] + s.chain, log := s.log + [DidPush(t, x)])
      else
        Goto(s, t, PushLink(x, n, s.head))
    case PopLoad => PopSaw(s, t)
    case PopReadNext(cur) => Goto(s, t, PopCas(cur, Read(s.nodes, cur).next))
    case PopCas(cur, next) =>
      if s.head == Ref(cur) && !e.spurious then
        Goto(s, t, PopTake(cur, |s.log|)).(
          head := next,
          chain := if s.chain == [] then [] else s.chain[1..],
          winner := s.winner[cur := t],
          log := s.log + [DidPop(t, Read(s.nodes, cur).data)])
      else
        PopSaw(s, t)
    case PopTake(cur, entry) =>
      Goto(s, t, Returned(Got(Read(s.nodes, cur).data), entry)).(
        nodes := Write(s.nodes, cur, Read(s.nodes, cur).(data := None)))
  }

  function Run<T>(s: State<T>, es: seq<Event<T>>): State<T> {
    if es == [] then s else Step(Run(s, es[..|es| - 1]), es[|es| - 1])
  }

  // ---------- the sequential stack ----------

  /** A legal history of a sequential stack ends with these items, top first; an illegal one with `None`. */
  function Replay<T(==)>(log: seq<Op<T>>): Option<seq<T>> {
    if log == [] then Some([])
    else
      match (Replay(log[..|log| - 1]), log[|log| - 1])
      case (None, _) => None
      case (Some(items), DidPush(_, x)) => Some([x] + items)
      case (Some(items), DidPop(_, got)) =>
        if items != [] && got == Some(items[0]) then Some(items[1..]) else None
      case (Some(items), FoundEmpty(_)) => if items == [] then Some([]) else None
  }

  function PushedItems<T>(log: seq<Op<T>>): multiset<T> {
    if log == [] then multiset{}
    else PushedItems(log[..|log| - 1]) +
         (if log[|log| - 1].DidPush? then multiset{log[|log| - 1].item} else multiset{})
  }

  function PoppedItems<T>(log: seq<Op<T>>): multiset<T> {
    if log == [] then multiset{}
    else PoppedItems(log[..|log| - 1]) +
         (if log[|log| - 1].DidPop? && log[|log| - 1].got.Some? then multiset{log[|log| - 1].got.value} else multiset{})
  }

  /** The items reachable from the head, top first. */
  function Items<T>(nodes: seq<Node<T>>, chain: seq<nat>): seq<T>
    requires forall i | 0 <= i < |chain| :: chain[i] < |nodes| && nodes[chain[i]].data.Some?
  {
    if chain == [] then [] else [nodes[chain[0]].data.value] + Items(nodes, chain[1..])
  }
}
