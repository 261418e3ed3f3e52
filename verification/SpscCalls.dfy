/** Every call of the ring, from the event that began it: what it did, and what it may answer. */
module SpscCalls {
  import opened Prelude
  import opened Spsc
  import opened SpscProof

  /** `ss` are the states that the schedule `es` goes through. */
  ghost predicate Trace<T>(ss: seq<State<T>>, es: seq<Event<T>>) {
    && |ss| == |es| + 1
    && (forall n | 0 <= n <= |es| :: |ss[n].buffer| > 0)
    && forall n {:trigger es[n]} | 0 <= n < |es| :: ss[n + 1] == Step(ss[n], es[n])
  }

  lemma {:induction false} EveryRunHasATrace<T>(s: State<T>, es: seq<Event<T>>) returns (ss: seq<State<T>>)
    requires |s.buffer| > 0
    ensures Trace(ss, es) && ss[0] == s && ss[|es|] == Run(s, es)
    decreases |es|
  {
    if es == [] {
      ss := [s];
    } else {
      var before := EveryRunHasATrace(s, es[..|es| - 1]);
      ss := before + [Step(before[|es| - 1], es[|es| - 1])];
    }
  }

  lemma {:induction false} TraceInv<T>(ss: seq<State<T>>, es: seq<Event<T>>, n: nat)
    requires Trace(ss, es) && Inv(ss[0]) && n <= |es|
    ensures Inv(ss[n]) && |ss[n].buffer| == |ss[0].buffer|
    decreases n
  {
    if n == 0 {
    } else {
      TraceInv(ss, es, n - 1);
      StepInv(ss[n - 1], es[n - 1]);
    }
  }

  // ---------- one call ----------

  datatype Request<T> = AskPush(x: T) | AskPop | AskSize

  /** What an event asks for between calls. */
  function Asked<T>(e: Event<T>): Request<T> {
    if e.size || e.role == Observer then AskSize else if e.role == Producer then AskPush(e.x) else AskPop
  }

  /** The first event begins a call in that role, and the call has not ended before the last one. */
  ghost predicate OneCall<T>(ss: seq<State<T>>, es: seq<Event<T>>, role: Role) {
    && Trace(ss, es) && Inv(ss[0])
    && es != [] && es[0].role == role && !InCall(At(ss[0], role))
    && forall n | 0 < n < |es| :: InCall(At(ss[n], role))
  }

  /** From event `a` up to event `b` the call neither published nor released an item. */
  ghost predicate Quiet<T>(ss: seq<State<T>>, es: seq<Event<T>>, role: Role, a: nat, b: nat)
    requires Trace(ss, es) && b <= |es|
  {
    forall n {:trigger es[n]} | a <= n < b && es[n].role == role ::
      ss[n + 1].pushed == ss[n].pushed && ss[n + 1].popped == ss[n].popped
  }

  ghost predicate PushedAt<T>(ss: seq<State<T>>, es: seq<Event<T>>, role: Role, n: nat, x: T)
    requires Trace(ss, es) && n < |es|
  {
    && es[n].role == role && Quiet(ss, es, role, 0, n) && Quiet(ss, es, role, n + 1, |es|)
    && |Contents(ss[n])| < |ss[n].buffer| - 1 && Contents(ss[n + 1]) == Contents(ss[n]) + [x]
  }

  ghost predicate PoppedAt<T>(ss: seq<State<T>>, es: seq<Event<T>>, role: Role, n: nat, got: Option<T>)
    requires Trace(ss, es) && n < |es|
  {
    && es[n].role == role && Quiet(ss, es, role, 0, n) && Quiet(ss, es, role, n + 1, |es|)
    && Contents(ss[n]) != [] && got == Some(Contents(ss[n])[0]) && Contents(ss[n + 1]) == Contents(ss[n])[1..]
  }

  /** At some step of the call the ring held `size` items. */
  ghost predicate SawSize<T>(ss: seq<State<T>>, es: seq<Event<T>>, role: Role, m: nat, size: int)
    requires Trace(ss, es) && m <= |es|
  {
    exists n {:trigger es[n]} :: 0 <= n < m && es[n].role == role && |Contents(ss[n])| == size
  }

  ghost predicate SawWritePos<T>(ss: seq<State<T>>, es: seq<Event<T>>, role: Role, m: nat, w: nat)
    requires Trace(ss, es) && m <= |es|
  {
    exists n {:trigger es[n]} :: 0 <= n < m && es[n].role == role && ss[n].writePos == w
  }

  /** Where a call stands after `m` events, before it has answered. */
  ghost predicate Stands<T>(ss: seq<State<T>>, es: seq<Event<T>>, role: Role, m: nat)
    requires Trace(ss, es) && m <= |es| && es != []
  {
    && Quiet(ss, es, role, 0, m)
    && match (Asked(es[0]), At(ss[m], role))
       case (AskPush(x), PushLoadWrite(y)) => y == x
       case (AskPush(x), PushLoadRead(y, _)) => y == x
       case (AskPush(x), PushStore(y, _)) => y == x
       case (AskPush(x), PushPublish(y, _)) => y == x
       case (AskPop, pc) => pc.PopLoadRead? || pc.PopLoadWrite? || pc.PopMove? || pc.PopRelease?
       case (AskSize, SizeLoadWrite) => true
       case (AskSize, SizeLoadRead(w)) => SawWritePos(ss, es, role, m, w)
       case _ => false
  }

  // ---------- one more event ----------

  lemma OtherMoves<T>(s: State<T>, e: Event<T>, role: Role)
    requires |s.buffer| > 0 && e.role != role
    ensures At(Step(s, e), role) == At(s, role)
  {
  }

  lemma LocalIsQuiet<T>(s: State<T>, e: Event<T>)
    requires |s.buffer| > 0 && !At(s, e.role).PushPublish? && !At(s, e.role).PopRelease?
    ensures Step(s, e).pushed == s.pushed && Step(s, e).popped == s.popped
  {
  }

  /** Before its last step a call stays in the operation it was asked for, with the same item. */
  lemma StaysOnCourse<T>(s: State<T>, e: Event<T>)
    requires |s.buffer| > 0 && InCall(At(s, e.role)) && InCall(At(Step(s, e), e.role))
    ensures var pc, pc' := At(s, e.role), At(Step(s, e), e.role);
            match pc
            case PushLoadWrite(x) => pc'.PushLoadRead? && pc'.x == x
            case PushLoadRead(x, _) => pc'.PushStore? && pc'.x == x
            case PushStore(x, _) => pc'.PushPublish? && pc'.x == x
            case PopLoadRead => pc'.PopLoadWrite?
            case PopLoadWrite(_) => pc'.PopMove?
            case PopMove(_) => pc'.PopRelease?
            case SizeLoadWrite => pc' == SizeLoadRead(s.writePos)
            case _ => false
  {
  }

  lemma StandsOn<T>(ss: seq<State<T>>, es: seq<Event<T>>, role: Role, m: nat)
    requires OneCall(ss, es, role) && 0 < m < |es| && Stands(ss, es, role, m) && InCall(At(ss[m + 1], role))
    ensures Stands(ss, es, role, m + 1)
  {
    if es[m].role == role {
      StaysOnCourse(ss[m], es[m]);
      LocalIsQuiet(ss[m], es[m]);
    } else {
      OtherMoves(ss[m], es[m], role);
    }
  }

  lemma Begins<T>(ss: seq<State<T>>, es: seq<Event<T>>, role: Role)
    requires OneCall(ss, es, role)
    ensures Stands(ss, es, role, 1)
  {
    LocalIsQuiet(ss[0], es[0]);
  }

  lemma {:induction false} StandsUpTo<T>(ss: seq<State<T>>, es: seq<Event<T>>, role: Role, m: nat)
    requires OneCall(ss, es, role) && 0 < m <= |es| && InCall(At(ss[m], role))
    ensures Stands(ss, es, role, m)
    decreases m
  {
    if m == 1 {
      Begins(ss, es, role);
    } else {
      StandsUpTo(ss, es, role, m - 1);
      StandsOn(ss, es, role, m - 1);
    }
  }

  // ---------- the last event ----------

  lemma PushAnswers<T>(s: State<T>, e: Event<T>)
    requires Inv(s) && (At(s, e.role).PushLoadRead? || At(s, e.role).PushPublish?) && !InCall(At(Step(s, e), e.role))
    ensures if At(s, e.role).PushPublish? then
              && At(Step(s, e), e.role) == Returned(PushDone(true))
              && |Contents(s)| < |s.buffer| - 1 && Contents(Step(s, e)) == Contents(s) + [At(s, e.role).x]
            else
              At(Step(s, e), e.role) == Returned(PushDone(false)) && |Contents(s)| == |s.buffer| - 1
  {
    FullTest(s);
    if At(s, e.role).PushPublish? {
      PushPublishInv(s, e);
    }
  }

  lemma PopAnswers<T>(s: State<T>, e: Event<T>)
    requires Inv(s) && (At(s, e.role).PopLoadWrite? || At(s, e.role).PopRelease?) && !InCall(At(Step(s, e), e.role))
    ensures if At(s, e.role).PopRelease? then
              && Contents(s) != [] && At(Step(s, e), e.role) == Returned(PopDone(Some(Contents(s)[0])))
              && Contents(Step(s, e)) == Contents(s)[1..]
            else
              At(Step(s, e), e.role) == Returned(PopFailed) && Contents(s) == []
  {
    EmptyTest(s);
    if At(s, e.role).PopRelease? {
      PopReleaseInv(s, e);
    }
  }

  /** Only these steps end a call. */
  lemma EndsFrom<T>(s: State<T>, e: Event<T>)
    requires |s.buffer| > 0 && InCall(At(s, e.role)) && !InCall(At(Step(s, e), e.role))
    ensures var pc := At(s, e.role);
            pc.PushLoadRead? || pc.PushPublish? || pc.PopLoadWrite? || pc.PopRelease? || pc.SizeLoadRead?
    ensures At(s, e.role).SizeLoadRead? ==>
              At(Step(s, e), e.role) == Returned(SizeDone(SizeOf(At(s, e.role).w, s.readPos, |s.buffer|)))
  {
  }

  lemma LastEvent<T>(ss: seq<State<T>>, es: seq<Event<T>>, role: Role)
    requires OneCall(ss, es, role) && At(ss[|es|], role).Returned?
    ensures |es| > 1 && es[|es| - 1].role == role && Stands(ss, es, role, |es| - 1)
  {
    Begins(ss, es, role);
    var k := |es| - 1;
    if k == 0 {
      assert false;
    } else {
      StandsUpTo(ss, es, role, k);
      if es[k].role != role {
        OtherMoves(ss[k], es[k], role);
      }
    }
  }

  /**
   In every run every call answers what it was asked.  A Push of `x` that returns true appended `x` in one of its
   steps, when there was room, and one that returns false saw the ring full; a Pop that returns an item removed it,
   as the oldest, in one of its steps, and one that fails saw the ring empty; neither did anything else.  Size
   computes its answer from the write index at its first load and the read index at its second.
   */
  lemma EveryAnswerFitsItsCall<T>(ss: seq<State<T>>, es: seq<Event<T>>, role: Role)
    requires OneCall(ss, es, role) && At(ss[|es|], role).Returned?
    ensures |es| > 1
    ensures match (Asked(es[0]), At(ss[|es|], role).result)
            case (AskPush(x), PushDone(true)) => PushedAt(ss, es, role, |es| - 1, x)
            case (AskPush(_), PushDone(false)) =>
              Quiet(ss, es, role, 0, |es|) && SawSize(ss, es, role, |es|, |ss[0].buffer| - 1)
            case (AskPop, PopDone(got)) => PoppedAt(ss, es, role, |es| - 1, got)
            case (AskPop, PopFailed) => Quiet(ss, es, role, 0, |es|) && SawSize(ss, es, role, |es|, 0)
            case (AskSize, SizeDone(z)) =>
              && Quiet(ss, es, role, 0, |es|)
              && exists n :: 0 <= n < |es| - 1 && es[n].role == role &&
                   z == SizeOf(ss[n].writePos, ss[|es| - 1].readPos, |ss[0].buffer|)
            case _ => false
  {
    LastEvent(ss, es, role);
    var k := |es| - 1;
    TraceInv(ss, es, k);
    EndsFrom(ss[k], es[k]);
    match Asked(es[0])
    case AskPush(x) => PushAnswers(ss[k], es[k]);
      if !At(ss[k], role).PushPublish? {
        LocalIsQuiet(ss[k], es[k]);
      }
    case AskPop => PopAnswers(ss[k], es[k]);
      if !At(ss[k], role).PopRelease? {
        LocalIsQuiet(ss[k], es[k]);
      }
    case AskSize => LocalIsQuiet(ss[k], es[k]);
      assert SawWritePos(ss, es, role, k, At(ss[k], role).w);
  }
}
