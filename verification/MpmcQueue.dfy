/** The queue object itself: cells, indices and thread positions updated in place, in machine words. */
module MpmcObject {
  import opened Words
  import opened Prelude
  import opened Mpmc
  import opened MpmcProof
  import opened MpmcTheorems

  class MpmcQueue<T> {
    const buffer: array<Cell<T>>
    var head: nat
    var tail: nat
    var pcs: map<Tid, Pc<T>>
    ghost var pushed: seq<T>
    ghost var phases: seq<Phase>
    ghost var popped: map<nat, Option<T>>

    ghost function View(): (s: State<T>)
      reads this, buffer
    {
      State(buffer[..], head, tail, pcs, pushed, phases, popped)
    }

    constructor (capacity: nat)
      requires capacity > 0 && BitAnd(capacity, capacity - 1) == 0
      ensures fresh(buffer) && View() == Init(capacity)
    {
      buffer := new Cell<T>[capacity](_ => Cell(None, 0));
      head, tail, pcs := 0, 0, map[];
      pushed, phases, popped := [], [], map[];
      new;
      for i := 0 to capacity
        invariant forall k | 0 <= k < i :: buffer[k] == Cell(None, k)
        invariant forall k | i <= k < capacity :: buffer[k] == Cell(None, 0)
        invariant head == tail == 0 && pcs == map[] && pushed == [] && phases == [] && popped == map[]
      {
        buffer[i] := buffer[i].(sequence := i);
      }
      assert buffer[..] == Init<T>(capacity).cells;
    }

    /** The thread of `e` performs its next access. */
    method Advance(e: Event<T>)
      requires buffer.Length > 0
      modifies this, buffer
      ensures View() == Step(Word64, old(View()), e)
    {
      var pc := if e.tid in pcs then pcs[e.tid] else Idle;
      if InPush(pc) {
        AdvancePush(e, pc);
      } else if InPop(pc) {
        AdvancePop(e, pc);
      } else if pc.SizeLoadHead? {
        pcs := pcs[e.tid := SizeLoadTail(head, tail - head)];
      } else if pc.SizeLoadTail? {
        pcs := pcs[e.tid := Returned(SizeDone(Minus(Word64, tail, pc.headSeen)))];
      } else {
        pcs := pcs[e.tid := Invoke(e.call)];
      }
    }

    method AdvancePush(e: Event<T>, pc: Pc<T>)
      requires buffer.Length > 0 && InPush(pc) && pc == At(View(), e.tid)
      modifies this, buffer
      ensures View() == StepPush(Word64, old(View()), e)
    {
      var t := e.tid;
      ghost var before := buffer[..];
      match pc
      case PushLoadTail(x) => pcs := pcs[t := PushLoadSeq(x, tail)];
      case PushLoadSeq(x, pos) =>
        var cell := buffer[BitAnd(pos, buffer.Length - 1)];
        var diff := Signed(cell.sequence) - Signed(pos);
        if diff == 0 {
          pcs := pcs[t := PushCas(x, pos)];
        } else if diff < 0 {
          pcs := pcs[t := Returned(PushDone(false))];
        } else {
          pcs := pcs[t := PushReload(x, pos)];
        }
      case PushCas(x, pos) =>
        if tail == pos && !e.spurious {
          tail, pcs := (pos + 1) % WORD, pcs[t := PushWrite(x, pos)];
          pushed, phases := pushed + [x], phases + [Claimed(t)];
        } else {
          pcs := pcs[t := PushLoadSeq(x, tail)];
        }
      case PushReload(x, _) => pcs := pcs[t := PushLoadSeq(x, tail)];
      case PushWrite(x, pos) =>
        var i := BitAnd(pos, buffer.Length - 1);
        buffer[i] := buffer[i].(data := Some(x));
        pcs := pcs[t := PushPublish(x, pos)];
        assert buffer[..] == before[i := before[i].(data := Some(x))];
      case PushPublish(_, pos) =>
        var i := BitAnd(pos, buffer.Length - 1);
        buffer[i] := buffer[i].(sequence := (pos + 1) % WORD);
        pcs := pcs[t := Returned(PushDone(true))];
        phases := SetPhase(phases, pos, Published);
        assert buffer[..] == before[i := before[i].(sequence := (pos + 1) % WORD)];
    }

    method AdvancePop(e: Event<T>, pc: Pc<T>)
      requires buffer.Length > 0 && InPop(pc) && pc == At(View(), e.tid)
      modifies this, buffer
      ensures View() == StepPop(Word64, old(View()), e)
    {
      var t := e.tid;
      ghost var before := buffer[..];
      match pc
      case PopLoadHead => pcs := pcs[t := PopLoadSeq(head)];
      case PopLoadSeq(pos) =>
        var cell := buffer[BitAnd(pos, buffer.Length - 1)];
        var diff := Signed(cell.sequence) - Signed((pos + 1) % WORD);
        if diff == 0 {
          pcs := pcs[t := PopCas(pos)];
        } else if diff < 0 {
          pcs := pcs[t := Returned(PopFailed)];
        } else {
          pcs := pcs[t := PopReload(pos)];
        }
      case PopCas(pos) =>
        if head == pos && !e.spurious {
          head, pcs := (pos + 1) % WORD, pcs[t := PopMove(pos)];
          phases := SetPhase(phases, pos, Taken(t));
        } else {
          pcs := pcs[t := PopLoadSeq(head)];
        }
      case PopReload(_) => pcs := pcs[t := PopLoadSeq(head)];
      case PopMove(pos) =>
        var i := BitAnd(pos, buffer.Length - 1);
        pcs := pcs[t := PopRelease(pos, buffer[i].data)];
        buffer[i] := buffer[i].(data := None);
        assert buffer[..] == before[i := before[i].(data := None)];
      case PopRelease(pos, got) =>
        var i := BitAnd(pos, buffer.Length - 1);
        buffer[i] := buffer[i].(sequence := (pos + buffer.Length) % WORD);
        pcs := pcs[t := Returned(PopDone(got))];
        phases, popped := SetPhase(phases, pos, Released), popped[pos := got];
        assert buffer[..] == before[i := before[i].(sequence := (pos + buffer.Length) % WORD)];
    }

    /** Any schedule, executed on the object in words, ends where the unbounded model ends. */
    method Execute(es: seq<Event<T>>)
      requires buffer.Length >= 2 && BitAnd(buffer.Length, buffer.Length - 1) == 0
      requires View() == Init(buffer.Length)
      requires Run(Unbounded, View(), es).tail + buffer.Length <= HALF
      modifies this, buffer
      ensures View() == Run(Unbounded, old(View()), es) && Inv(View())
    {
      ghost var start := View();
      for k := 0 to |es|
        invariant View() == Run(Word64, start, es[..k])
      {
        Advance(es[k]);
        assert es[..k + 1][..k] == es[..k];
      }
      assert es[..|es|] == es;
      WordRunRefines(buffer.Length, es);
      InitInv<T>(buffer.Length);
      RunInv(start, es);
    }
  }
}
