/**
 The single-producer single-consumer ring as a transition system.  One thread plays the producer and one the
 consumer; a third, the observer, only ever calls `Size`.
 */
module Spsc {
  import opened Ring
  import opened Prelude

  datatype Role = Producer | Consumer | Observer

  datatype Result<T> = PushDone(ok: bool) | PopFailed | PopDone(item: Option<T>) | SizeDone(size: int)

  datatype Pc<T> =
    | Idle
    | PushLoadWrite(x: T)
    | PushLoadRead(x: T, w: nat)
    | PushStore(x: T, w: nat)
    | PushPublish(x: T, w: nat)
    | PopLoadRead
    | PopLoadWrite(r: nat)
    | PopMove(r: nat)
    | PopRelease(r: nat, got: Option<T>)
    | SizeLoadWrite
    | SizeLoadRead(w: nat)
    | Returned(result: Result<T>)

  /** `pushed` and `popped` are history: the items published and released so far. */
  datatype State<T> = State(
    buffer: seq<Option<T>>,
    readPos: nat,
    writePos: nat,
    producer: Pc<T>,
    consumer: Pc<T>,
    observer: Pc<T>,
    pushed: seq<T>,
    popped: seq<T>)

  /** Between calls the role starts `Size` if asked to, and otherwise its own operation, with item `x` for Push. */
  datatype Event<T> = Event(role: Role, x: T, size: bool)

  function At<T>(s: State<T>, role: Role): Pc<T> {
    match role
    case Producer => s.producer
    case Consumer => s.consumer
    case Observer => s.observer
  }

  function Goto<T>(s: State<T>, role: Role, pc: Pc<T>): State<T> {
    match role
    case Producer => s.(producer := pc)
    case Consumer => s.(consumer := pc)
    case Observer => s.(observer := pc)
  }

  function Init<T>(c: nat): (s: State<T>)
    ensures |s.buffer| == c
  {
    State(seq(c, _ => None), 0, 0, Idle, Idle, Idle, [], [])
  }

  /** The index after `i`; for the capacities the code accepts it is the code's mask (`NextIsMask`). */
  function Next(i: nat, c: nat): (j: nat)
    requires c > 0
    ensures j < c
  {
    Slot(i + 1, c)
  }

  /** What `Size` computes from the two indices it read. */
  function SizeOf(w: nat, r: nat, c: nat): int {
    if w >= r then w - r else c - r + w
  }

  function Invoke<T>(e: Event<T>): Pc<T> {
    if e.size || e.role.Observer? then SizeLoadWrite
    else if e.role.Producer? then PushLoadWrite(e.x)
    else PopLoadRead
  }

  function Cell<T>(s: State<T>, i: nat): Option<T> {
    if i < |s.buffer| then s.buffer[i] else None
  }

  function SetCell<T>(buffer: seq<Option<T>>, i: nat, cell: Option<T>): seq<Option<T>> {
    if i < |buffer| then buffer[i := cell] else buffer
  }

  function Step<T>(s: State<T>, e: Event<T>): (s': State<T>)
    requires |s.buffer| > 0
    ensures |s'.buffer| == |s.buffer|
  {
    var c := |s.buffer|;
    match At(s, e.role)
    case Idle | Returned(_) => Goto(s, e.role, Invoke(e))
    case PushLoadWrite(x) => Goto(s, e.role, PushLoadRead(x, s.writePos))
    case PushLoadRead(x, w) =>
      Goto(s, e.role, if Next(w, c) == s.readPos then Returned(PushDone(false)) else PushStore(x, w))
    case PushStore(x, w) => Goto(s, e.role, PushPublish(x, w)).(buffer := SetCell(s.buffer, w, Some(x)))
    case PushPublish(x, w) =>
      Goto(s, e.role, Returned(PushDone(true))).(writePos := Next(w, c), pushed := s.pushed + [x])
    case PopLoadRead => Goto(s, e.role, PopLoadWrite(s.readPos))
    case PopLoadWrite(r) => Goto(s, e.role, if r == s.writePos then Returned(PopFailed) else PopMove(r))
    case PopMove(r) => Goto(s, e.role, PopRelease(r, Cell(s, r))).(buffer := SetCell(s.buffer, r, None))
    case PopRelease(r, got) =>
      Goto(s, e.role, Returned(PopDone(got))).(
        readPos := Next(r, c), popped := if got.Some? then s.popped + [got.value] else s.popped)
    case SizeLoadWrite => Goto(s, e.role, SizeLoadRead(s.writePos))
    case SizeLoadRead(w) => Goto(s, e.role, Returned(SizeDone(SizeOf(w, s.readPos, c))))
  }

  function Run<T>(s: State<T>, es: seq<Event<T>>): (s': State<T>)
    requires |s.buffer| > 0
    ensures |s'.buffer| == |s.buffer|
  {
    if es == [] then s else Step(Run(s, es[..|es| - 1]), es[|es| - 1])
  }

  /** The abstract queue: published and not yet released. */
  function Contents<T>(s: State<T>): seq<T> {
    if |s.popped| <= |s.pushed| then s.pushed[|s.popped|..] else []
  }
}
