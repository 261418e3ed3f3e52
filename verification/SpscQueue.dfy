/** The single-producer single-consumer ring object, updated in place with the code's masks. */
module SpscObject {
  import opened Words
  import opened Prelude
  import opened Spsc
  import opened SpscProof

  class SpscQueue<T> {
    const buffer: array<Option<T>>
    var readPos: nat
    var writePos: nat
    var producer: Pc<T>
    var consumer: Pc<T>
    var observer: Pc<T>
    ghost var pushed: seq<T>
    ghost var popped: seq<T>

    ghost function View(): (s: State<T>)
      reads this, buffer
    {
      State(buffer[..], readPos, writePos, producer, consumer, observer, pushed, popped)
    }

    ghost predicate Valid()
      reads this, buffer
    {
      Inv(View()) && BitAnd(buffer.Length, buffer.Length - 1) == 0
    }

    constructor (capacity: nat)
      requires capacity > 0 && BitAnd(capacity, capacity - 1) == 0
      ensures fresh(buffer) && Valid() && View() == Init(capacity)
    {
      buffer := new Option<T>[capacity](_ => None);
      readPos, writePos := 0, 0;
      producer, consumer, observer := Idle, Idle, Idle;
      pushed, popped := [], [];
      new;
      assert buffer[..] == Init<T>(capacity).buffer;
      InitInv<T>(capacity);
    }

    method SetPc(role: Role, pc: Pc<T>)
      modifies this`producer, this`consumer, this`observer
      ensures View() == Goto(old(View()), role, pc)
    {
      match role
      case Producer => producer := pc;
      case Consumer => consumer := pc;
      case Observer => observer := pc;
    }

    /** The thread in that role performs its next access. */
    method Advance(e: Event<T>)
      requires Valid()
      modifies this, buffer
      ensures View() == Step(old(View()), e) && Valid()
    {
      StepInv(View(), e);
      var pc := match e.role case Producer => producer case Consumer => consumer case Observer => observer;
      if IsLocal(pc) {
        AdvanceLocal(e, pc);
      } else {
        AdvanceMoving(e, pc);
      }
    }

    method AdvanceLocal(e: Event<T>, pc: Pc<T>)
      requires Valid() && pc == At(View(), e.role) && IsLocal(pc)
      modifies this`producer, this`consumer, this`observer
      ensures View() == Step(old(View()), e)
    {
      match pc
      case Idle | Returned(_) => SetPc(e.role, Invoke(e));
      case PushLoadWrite(x) => SetPc(e.role, PushLoadRead(x, writePos));
      case PushLoadRead(x, w) =>
        NextIsMask(w, buffer.Length);
        if BitAnd(w + 1, buffer.Length - 1) == readPos {
          SetPc(e.role, Returned(PushDone(false)));
        } else {
          SetPc(e.role, PushStore(x, w));
        }
      case PopLoadRead => SetPc(e.role, PopLoadWrite(readPos));
      case PopLoadWrite(r) => SetPc(e.role, if r == writePos then Returned(PopFailed) else PopMove(r));
      case SizeLoadWrite => SetPc(e.role, SizeLoadRead(writePos));
      case SizeLoadRead(w) =>
        var size := if w >= readPos then w - readPos else buffer.Length - readPos + w;
        SetPc(e.role, Returned(SizeDone(size)));
    }

    method AdvanceMoving(e: Event<T>, pc: Pc<T>)
      requires Valid() && pc == At(View(), e.role) && !IsLocal(pc)
      modifies this, buffer
      ensures View() == Step(old(View()), e)
    {
      if pc.PushStore? || pc.PushPublish? {
        MovingPush(e, pc);
      } else {
        MovingPop(e, pc);
      }
    }

    method MovingPush(e: Event<T>, pc: Pc<T>)
      requires Valid() && pc == At(View(), e.role) && (pc.PushStore? || pc.PushPublish?)
      modifies this, buffer
      ensures View() == Step(old(View()), e)
    {
      ghost var before := buffer[..];
      match pc
      case PushStore(x, w) =>
        buffer[w] := Some(x);
        SetPc(e.role, PushPublish(x, w));
        assert buffer[..] == before[w := Some(x)];
      case PushPublish(x, w) =>
        NextIsMask(w, buffer.Length);
        writePos := BitAnd(w + 1, buffer.Length - 1);
        pushed := pushed + [x];
        SetPc(e.role, Returned(PushDone(true)));
    }

    method MovingPop(e: Event<T>, pc: Pc<T>)
      requires Valid() && pc == At(View(), e.role) && (pc.PopMove? || pc.PopRelease?)
      modifies this, buffer
      ensures View() == Step(old(View()), e)
    {
      ghost var before := buffer[..];
      match pc
      case PopMove(r) =>
        var got := buffer[r];
        buffer[r] := None;
        SetPc(e.role, PopRelease(r, got));
        assert buffer[..] == before[r := None];
      case PopRelease(r, got) =>
        NextIsMask(r, buffer.Length);
        readPos := BitAnd(r + 1, buffer.Length - 1);
        popped := popped + [got.value];
        SetPc(e.role, Returned(PopDone(got)));
    }

    method Execute(es: seq<Event<T>>)
      requires Valid()
      modifies this, buffer
      ensures View() == Run(old(View()), es) && Valid()
    {
      ghost var start := View();
      for k := 0 to |es|
        invariant View() == Run(start, es[..k]) && Valid()
      {
        Advance(es[k]);
        assert es[..k + 1][..k] == es[..k];
      }
      assert es[..|es|] == es;
    }
  }
}
