/**
 The bounded multi-producer multi-consumer queue as a transition system.

 Every atomic access and every data move of `Push`, `Pop` and `Size` is one step; a schedule is any
 sequence of events, each naming the thread that moves next.  The accesses are sequentially consistent.
 */
module Mpmc {
  import opened Words
  import opened Ring
  import opened Prelude

  /** How positions are computed: on unbounded integers, or on 64-bit words with a mask as the code does. */
  datatype Arithmetic = Unbounded | Word64

  function Index(m: Arithmetic, pos: nat, c: nat): (i: nat)
    requires c > 0
    ensures i < c
  {
    match m
    case Unbounded => Slot(pos, c)
    case Word64 => BitAnd(pos, c - 1)
  }

  function Diff(m: Arithmetic, a: nat, b: nat): int {
    match m
    case Unbounded => a - b
    case Word64 => Signed(a) - Signed(b)
  }

  function Plus(m: Arithmetic, a: nat, n: nat): nat {
    match m
    case Unbounded => a + n
    case Word64 => (a + n) % WORD
  }

  function Minus(m: Arithmetic, a: nat, b: nat): nat {
    match m
    case Unbounded => if b <= a then a - b else 0
    case Word64 => (a - b) % WORD
  }

  /** `data` is `None` when no item may be relied on: before the first write and after a move out. */
  datatype Cell<T> = Cell(data: Option<T>, sequence: nat)

  datatype Call<T> = CallPush(item: T) | CallPop | CallSize

  datatype Result<T> = PushDone(ok: bool) | PopFailed | PopDone(item: Option<T>) | SizeDone(size: nat)

  /** Where a thread stands inside a call; named after the access it performs next. */
  datatype Pc<T> =
    | Idle
    | PushLoadTail(x: T)
    | PushLoadSeq(x: T, pos: nat)
    | PushCas(x: T, pos: nat)
    | PushReload(x: T, pos: nat)
    | PushWrite(x: T, pos: nat)
    | PushPublish(x: T, pos: nat)
    | PopLoadHead
    | PopLoadSeq(pos: nat)
    | PopCas(pos: nat)
    | PopReload(pos: nat)
    | PopMove(pos: nat)
    | PopRelease(pos: nat, got: Option<T>)
    | SizeLoadHead
      // `sizeThen` is history: the size at the instant `m_head` was read
    | SizeLoadTail(headSeen: nat, sizeThen: int)
    | Returned(result: Result<T>)

  /** The life of one position, kept as history. */
  datatype Phase = Claimed(owner: Tid) | Published | Taken(owner: Tid) | Released

  /** The last three fields are history: no step reads them. */
  datatype State<T> = State(
    cells: seq<Cell<T>>,
    head: nat,
    tail: nat,
    pcs: map<Tid, Pc<T>>,
    pushed: seq<T>,
    phases: seq<Phase>,
    popped: map<nat, Option<T>>)

  /** `call` is used when the thread is between calls, `spurious` when it is at a weak compare-exchange. */
  datatype Event<T> = Event(tid: Tid, call: Call<T>, spurious: bool)

  function At<T>(s: State<T>, t: Tid): Pc<T> {
    if t in s.pcs then s.pcs[t] else Idle
  }

  function Init<T>(c: nat): (s: State<T>)
    requires c > 0
    ensures |s.cells| == c
  {
    State(seq(c, (i: nat) => Cell(None, i)), 0, 0, map[], [], [], map[])
  }

  function Goto<T>(s: State<T>, t: Tid, pc: Pc<T>): State<T> {
    s.(pcs := s.pcs[t := pc])
  }

  function Invoke<T>(call: Call<T>): Pc<T> {
    match call
    case CallPush(item) => PushLoadTail(item)
    case CallPop => PopLoadHead
    case CallSize => SizeLoadHead
  }

  function SetPhase(phases: seq<Phase>, p: nat, phase: Phase): seq<Phase> {
    if p < |phases| then phases[p := phase] else phases
  }

  function Step<T>(m: Arithmetic, s: State<T>, e: Event<T>): (s': State<T>)
    requires |s.cells| > 0
    ensures |s'.cells| == |s.cells|
  {
    match At(s, e.tid)
    case Idle | Returned(_) => Goto(s, e.tid, Invoke(e.call))
    case PushLoadTail(_) | PushLoadSeq(_, _) | PushCas(_, _) | PushReload(_, _) | PushWrite(_, _) | PushPublish(_, _) =>
      StepPush(m, s, e)
    case PopLoadHead | PopLoadSeq(_) | PopCas(_) | PopReload(_) | PopMove(_) | PopRelease(_, _) =>
      StepPop(m, s, e)
    case SizeLoadHead => Goto(s, e.tid, SizeLoadTail(s.head, s.tail - s.head))
    case SizeLoadTail(h, _) => Goto(s, e.tid, Returned(SizeDone(Minus(m, s.tail, h))))
  }

  predicate InPush<T>(pc: Pc<T>) {
    pc.PushLoadTail? || pc.PushLoadSeq? || pc.PushCas? || pc.PushReload? || pc.PushWrite? || pc.PushPublish?
  }

  predicate InPop<T>(pc: Pc<T>) {
    pc.PopLoadHead? || pc.PopLoadSeq? || pc.PopCas? || pc.PopReload? || pc.PopMove? || pc.PopRelease?
  }

  function StepPush<T>(m: Arithmetic, s: State<T>, e: Event<T>): (s': State<T>)
    requires |s.cells| > 0 && InPush(At(s, e.tid))
    ensures |s'.cells| == |s.cells|
  {
    var t, c := e.tid, |s.cells|;
    match At(s, t)
    case PushLoadTail(x) => Goto(s, t, PushLoadSeq(x, s.tail))
    case PushLoadSeq(x, pos) =>
      var diff := Diff(m, s.cells[Index(m, pos, c)].sequence, pos);
      Goto(s, t, if diff == 0 then PushCas(x, pos)
                 else if diff < 0 then Returned(PushDone(false))
                 else PushReload(x, pos))
    case PushCas(x, pos) =>
      if s.tail == pos && !e.spurious then
        Goto(s, t, PushWrite(x, pos)).(tail := Plus(m, pos, 1),
                                       pushed := s.pushed + [x], phases := s.phases + [Claimed(t)])
      else
        Goto(s, t, PushLoadSeq(x, s.tail))
    case PushReload(x, _) => Goto(s, t, PushLoadSeq(x, s.tail))
    case PushWrite(x, pos) =>
      var i := Index(m, pos, c);
      Goto(s, t, PushPublish(x, pos)).(cells := s.cells[i := s.cells[i].(data := Some(x))])
    case PushPublish(_, pos) =>
      var i := Index(m, pos, c);
      Goto(s, t, Returned(PushDone(true))).(
        cells := s.cells[i := s.cells[i].(sequence := Plus(m, pos, 1))],
        phases := SetPhase(s.phases, pos, Published))
  }

  function StepPop<T>(m: Arithmetic, s: State<T>, e: Event<T>): (s': State<T>)
    requires |s.cells| > 0 && InPop(At(s, e.tid))
    ensures |s'.cells| == |s.cells|
  {
    var t, c := e.tid, |s.cells|;
    match At(s, t)
    case PopLoadHead => Goto(s, t, PopLoadSeq(s.head))
    case PopLoadSeq(pos) =>
      var diff := Diff(m, s.cells[Index(m, pos, c)].sequence, Plus(m, pos, 1));
      Goto(s, t, if diff == 0 then PopCas(pos)
                 else if diff < 0 then Returned(PopFailed)
                 else PopReload(pos))
    case PopCas(pos) =>
      if s.head == pos && !e.spurious then
        Goto(s, t, PopMove(pos)).(head := Plus(m, pos, 1), phases := SetPhase(s.phases, pos, Taken(t)))
      else
        Goto(s, t, PopLoadSeq(s.head))
    case PopReload(_) => Goto(s, t, PopLoadSeq(s.head))
    case PopMove(pos) =>
      var i := Index(m, pos, c);
      Goto(s, t, PopRelease(pos, s.cells[i].data)).(cells := s.cells[i := s.cells[i].(data := None)])
    case PopRelease(pos, got) =>
      var i := Index(m, pos, c);
      Goto(s, t, Returned(PopDone(got))).(
        cells := s.cells[i := s.cells[i].(sequence := Plus(m, pos, c))],
        phases := SetPhase(s.phases, pos, Released),
        popped := s.popped[pos := got])
  }

  /** The state after a whole schedule. */
  function Run<T>(m: Arithmetic, s: State<T>, es: seq<Event<T>>): (s': State<T>)
    requires |s.cells| > 0
    ensures |s'.cells| == |s.cells|
  {
    if es == [] then s else Step(m, Run(m, s, es[..|es| - 1]), es[|es| - 1])
  }

  /** The abstract queue: items claimed for pushing and not yet claimed for popping. */
  function Contents<T>(s: State<T>): seq<T> {
    if s.head <= s.tail <= |s.pushed| then s.pushed[s.head..s.tail] else []
  }
}
