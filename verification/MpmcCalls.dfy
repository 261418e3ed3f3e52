/** Every call of the queue, from the event that began it: what it did, when it did it, and what it may answer. */
module MpmcCalls {
  import opened Ring
  import opened Prelude
  import opened Mpmc
  import opened MpmcProof
  import opened MpmcTheorems

  // ---------- runs with all their states ----------

  /** `ss` are the states that the schedule `es` goes through. */
  ghost predicate Trace<T>(ss: seq<State<T>>, es: seq<Event<T>>) {
    && |ss| == |es| + 1
    && (forall n | 0 <= n <= |es| :: |ss[n].cells| > 0)
    && forall n {:trigger es[n]} | 0 <= n < |es| :: ss[n + 1] == Step(Unbounded, ss[n], es[n])
  }

  lemma {:induction false} TraceIsRun<T>(ss: seq<State<T>>, es: seq<Event<T>>)
    requires Trace(ss, es)
    ensures ss[|es|] == Run(Unbounded, ss[0], es)
    decreases |es|
  {
    if es == [] {
    } else {
      TraceIsRun(ss[..|es|], es[..|es| - 1]);
    }
  }

  lemma {:induction false} EveryRunHasATrace<T>(s: State<T>, es: seq<Event<T>>) returns (ss: seq<State<T>>)
    requires |s.cells| > 0
    ensures Trace(ss, es) && ss[0] == s
    decreases |es|
  {
    if es == [] {
      ss := [s];
    } else {
      var before := EveryRunHasATrace(s, es[..|es| - 1]);
      ss := before + [Step(Unbounded, before[|es| - 1], es[|es| - 1])];
    }
  }

  lemma {:induction false} TraceInv<T>(ss: seq<State<T>>, es: seq<Event<T>>, n: nat)
    requires Trace(ss, es) && Inv(ss[0]) && n <= |es|
    ensures Inv(ss[n]) && |ss[n].cells| == |ss[0].cells|
    decreases n
  {
    if n == 0 {
    } else {
      TraceInv(ss, es, n - 1);
      StepInv(ss[n - 1], es[n - 1]);
    }
  }

  lemma {:induction false} TraceExtends<T>(ss: seq<State<T>>, es: seq<Event<T>>, m: nat, n: nat)
    requires Trace(ss, es) && Inv(ss[0]) && m <= n <= |es|
    ensures ss[m].pushed <= ss[n].pushed
    decreases n
  {
    if n == m {
    } else {
      TraceInv(ss, es, n - 1);
      StepExtends(ss[n - 1], es[n - 1]);
      TraceExtends(ss, es, m, n - 1);
    }
  }

  // ---------- one call ----------

  /** The first event begins a call of `t`, and the call has not ended before the last one. */
  ghost predicate OneCall<T>(ss: seq<State<T>>, es: seq<Event<T>>, t: Tid) {
    && Trace(ss, es) && Inv(ss[0])
    && es != [] && es[0].tid == t && !InCall(At(ss[0], t))
    && forall n | 0 < n < |es| :: InCall(At(ss[n], t))
  }

  /** From event `a` up to event `b` the call neither claimed a position to push nor one to pop. */
  ghost predicate Quiet<T>(ss: seq<State<T>>, es: seq<Event<T>>, t: Tid, a: nat, b: nat)
    requires Trace(ss, es) && b <= |es|
  {
    forall n {:trigger es[n]} | a <= n < b && es[n].tid == t ::
      ss[n + 1].pushed == ss[n].pushed && ss[n + 1].head == ss[n].head
  }

  /** Up to event `m` the call claimed something in its step `n` and in no other. */
  ghost predicate OnlyAt<T>(ss: seq<State<T>>, es: seq<Event<T>>, t: Tid, m: nat, n: nat)
    requires Trace(ss, es) && m <= |es|
  {
    n < m && es[n].tid == t && Quiet(ss, es, t, 0, n) && Quiet(ss, es, t, n + 1, m)
  }

  ghost predicate PushedAt<T>(ss: seq<State<T>>, es: seq<Event<T>>, t: Tid, m: nat, n: nat, x: T)
    requires Trace(ss, es) && m <= |es|
  {
    && OnlyAt(ss, es, t, m, n)
    && ss[n + 1].pushed == ss[n].pushed + [x] && ss[n + 1].head == ss[n].head
    && |ss[n].pushed| == ss[n].tail < ss[n].head + |ss[n].cells|
  }

  ghost predicate PoppedAt<T>(ss: seq<State<T>>, es: seq<Event<T>>, t: Tid, m: nat, n: nat)
    requires Trace(ss, es) && m <= |es|
  {
    && OnlyAt(ss, es, t, m, n)
    && ss[n + 1].pushed == ss[n].pushed && ss[n + 1].head == ss[n].head + 1
    && ss[n].head < ss[n].tail == |ss[n].pushed|
  }

  /** The call's one claim appended `x` at `pos`. */
  ghost predicate HasPushed<T>(ss: seq<State<T>>, es: seq<Event<T>>, t: Tid, m: nat, x: T, pos: nat)
    requires Trace(ss, es) && m <= |es|
  {
    exists n: nat :: PushedAt(ss, es, t, m, n, x) && ss[n].tail == pos
  }

  /** The call's one claim removed the oldest item, `got`, at `pos`. */
  ghost predicate HasPopped<T>(ss: seq<State<T>>, es: seq<Event<T>>, t: Tid, m: nat, pos: nat, got: Option<T>)
    requires Trace(ss, es) && m <= |es|
  {
    exists n: nat :: PoppedAt(ss, es, t, m, n) && ss[n].head == pos && got == Some(ss[n].pushed[pos])
  }

  ghost predicate IsPublished<T>(s: State<T>, pos: nat) {
    pos < |s.phases| && !s.phases[pos].Claimed?
  }

  ghost predicate SawNoRoom<T>(ss: seq<State<T>>, es: seq<Event<T>>, t: Tid, m: nat)
    requires Trace(ss, es) && m <= |es|
  {
    exists n {:trigger es[n]} :: 0 <= n < m && es[n].tid == t && NoRoom(ss[n])
  }

  ghost predicate SawNothingReady<T>(ss: seq<State<T>>, es: seq<Event<T>>, t: Tid, m: nat)
    requires Trace(ss, es) && m <= |es|
  {
    exists n {:trigger es[n]} :: 0 <= n < m && es[n].tid == t && NothingReady(ss[n])
  }

  ghost predicate SawHead<T>(ss: seq<State<T>>, es: seq<Event<T>>, t: Tid, m: nat, h: nat)
    requires Trace(ss, es) && m <= |es|
  {
    exists j {:trigger es[j]} :: 0 <= j < m && es[j].tid == t && ss[j].head == h
  }

  /** The head at some step of the call before `k` and the tail at `k` are `z` apart. */
  ghost predicate MeasuredAt<T>(ss: seq<State<T>>, es: seq<Event<T>>, t: Tid, k: nat, z: nat)
    requires Trace(ss, es) && k < |es|
  {
    es[k].tid == t && z <= ss[k].tail && SawHead(ss, es, t, k, ss[k].tail - z)
  }

  ghost predicate Measured<T>(ss: seq<State<T>>, es: seq<Event<T>>, t: Tid, m: nat, z: nat)
    requires Trace(ss, es) && m <= |es|
  {
    exists k :: 0 <= k < m && MeasuredAt(ss, es, t, k, z)
  }

  /** Where a Push of `x` may stand after `m` events, and what it has done by then. */
  ghost predicate PushStands<T>(ss: seq<State<T>>, es: seq<Event<T>>, t: Tid, m: nat, x: T)
    requires Trace(ss, es) && m <= |es|
  {
    match At(ss[m], t)
    case PushLoadTail(y) => y == x && Quiet(ss, es, t, 0, m)
    case PushLoadSeq(y, _) => y == x && Quiet(ss, es, t, 0, m)
    case PushCas(y, _) => y == x && Quiet(ss, es, t, 0, m)
    case PushReload(y, _) => y == x && Quiet(ss, es, t, 0, m)
    case PushWrite(y, pos) => y == x && HasPushed(ss, es, t, m, x, pos)
    case PushPublish(y, pos) => y == x && HasPushed(ss, es, t, m, x, pos)
    case Returned(PushDone(true)) =>
      exists pos: nat :: HasPushed(ss, es, t, m, x, pos) && IsPublished(ss[m], pos)
    case Returned(PushDone(false)) => Quiet(ss, es, t, 0, m) && SawNoRoom(ss, es, t, m)
    case _ => false
  }

  ghost predicate PopStands<T>(ss: seq<State<T>>, es: seq<Event<T>>, t: Tid, m: nat)
    requires Trace(ss, es) && m <= |es|
  {
    match At(ss[m], t)
    case PopLoadHead => Quiet(ss, es, t, 0, m)
    case PopLoadSeq(_) => Quiet(ss, es, t, 0, m)
    case PopCas(_) => Quiet(ss, es, t, 0, m)
    case PopReload(_) => Quiet(ss, es, t, 0, m)
    case PopMove(pos) => pos < |ss[m].pushed| && HasPopped(ss, es, t, m, pos, Some(ss[m].pushed[pos]))
    case PopRelease(pos, got) => HasPopped(ss, es, t, m, pos, got)
    case Returned(PopDone(got)) => exists pos: nat :: HasPopped(ss, es, t, m, pos, got)
    case Returned(PopFailed) => Quiet(ss, es, t, 0, m) && SawNothingReady(ss, es, t, m)
    case _ => false
  }

  ghost predicate SizeStands<T>(ss: seq<State<T>>, es: seq<Event<T>>, t: Tid, m: nat)
    requires Trace(ss, es) && m <= |es|
  {
    && Quiet(ss, es, t, 0, m)
    && match At(ss[m], t)
       case SizeLoadHead => true
       case SizeLoadTail(h, _) => SawHead(ss, es, t, m, h)
       case Returned(SizeDone(z)) => Measured(ss, es, t, m, z)
       case _ => false
  }

  /** The call as it was asked for. */
  ghost predicate Stands<T>(ss: seq<State<T>>, es: seq<Event<T>>, t: Tid, m: nat)
    requires Trace(ss, es) && m <= |es| && es != []
  {
    match es[0].call
    case CallPush(x) => PushStands(ss, es, t, m, x)
    case CallPop => PopStands(ss, es, t, m)
    case CallSize => SizeStands(ss, es, t, m)
  }

  // ---------- one more event ----------

  /** A step of another thread leaves the call where it is. */
  lemma OtherMoves<T>(s: State<T>, e: Event<T>, t: Tid)
    requires Inv(s) && e.tid != t
    ensures At(Step(Unbounded, s, e), t) == At(s, t)
  {
  }

  lemma QuietOn<T>(ss: seq<State<T>>, es: seq<Event<T>>, t: Tid, a: nat, m: nat)
    requires Trace(ss, es) && m < |es| && Quiet(ss, es, t, a, m)
    requires es[m].tid == t ==> ss[m + 1].pushed == ss[m].pushed && ss[m + 1].head == ss[m].head
    ensures Quiet(ss, es, t, a, m + 1)
  {
  }

  /** The claim made at `n` is still the only one after another event without a claim. */
  lemma OnlyAtOn<T>(ss: seq<State<T>>, es: seq<Event<T>>, t: Tid, m: nat, n: nat)
    requires Trace(ss, es) && m < |es| && OnlyAt(ss, es, t, m, n)
    requires es[m].tid == t ==> ss[m + 1].pushed == ss[m].pushed && ss[m + 1].head == ss[m].head
    ensures OnlyAt(ss, es, t, m + 1, n)
  {
    QuietOn(ss, es, t, n + 1, m);
  }

  /** Steps other than a successful claim touch neither what was pushed nor the head. */
  lemma NoClaim<T>(s: State<T>, e: Event<T>)
    requires |s.cells| > 0
    requires !(At(s, e.tid).PushCas? && At(Step(Unbounded, s, e), e.tid).PushWrite?)
    requires !(At(s, e.tid).PopCas? && At(Step(Unbounded, s, e), e.tid).PopMove?)
    ensures Step(Unbounded, s, e).pushed == s.pushed && Step(Unbounded, s, e).head == s.head
  {
  }

  /** Where a Push of `x` goes before it has claimed a position. */
  lemma PushSearches<T>(s: State<T>, e: Event<T>, x: T)
    requires Inv(s) && InPush(At(s, e.tid)) && At(s, e.tid).x == x
    requires !At(s, e.tid).PushWrite? && !At(s, e.tid).PushPublish?
    requires !At(Step(Unbounded, s, e), e.tid).PushWrite?
    ensures var pc := At(Step(Unbounded, s, e), e.tid);
            || ((pc.PushLoadSeq? || pc.PushCas? || pc.PushReload?) && pc.x == x)
            || (pc == Returned(PushDone(false)) && NoRoom(s))
  {
    PushGivesUp(s, e);
  }

  lemma PushClaims<T>(s: State<T>, e: Event<T>, x: T)
    requires Inv(s) && InPush(At(s, e.tid)) && !At(s, e.tid).PushWrite? && At(s, e.tid).x == x
    requires At(Step(Unbounded, s, e), e.tid).PushWrite?
    ensures var s', pc := Step(Unbounded, s, e), At(Step(Unbounded, s, e), e.tid);
            && pc == PushWrite(x, s.tail) && s'.pushed == s.pushed + [x] && s'.head == s.head
            && |s.pushed| == s.tail < s.head + |s.cells|
  {
    assert At(s, e.tid).PushCas?;
    PushRefinesQueue(s, e);
  }

  lemma PushCompletes<T>(s: State<T>, e: Event<T>, x: T)
    requires Inv(s) && (At(s, e.tid).PushWrite? || At(s, e.tid).PushPublish?) && At(s, e.tid).x == x
    ensures var s', pc := Step(Unbounded, s, e), At(s, e.tid);
            if pc.PushWrite? then At(s', e.tid) == PushPublish(x, pc.pos)
            else At(s', e.tid) == Returned(PushDone(true)) && pc.pos < |s'.phases| && s'.phases[pc.pos].Published?
  {
    assert ThreadOk(s, e.tid);
  }

  lemma HasPushedOn<T>(ss: seq<State<T>>, es: seq<Event<T>>, t: Tid, m: nat, x: T, pos: nat)
    requires Trace(ss, es) && m < |es| && HasPushed(ss, es, t, m, x, pos)
    requires es[m].tid == t ==> ss[m + 1].pushed == ss[m].pushed && ss[m + 1].head == ss[m].head
    ensures HasPushed(ss, es, t, m + 1, x, pos)
  {
    var n: nat :| PushedAt(ss, es, t, m, n, x) && ss[n].tail == pos;
    OnlyAtOn(ss, es, t, m, n);
    assert PushedAt(ss, es, t, m + 1, n, x);
  }

  lemma HasPoppedOn<T>(ss: seq<State<T>>, es: seq<Event<T>>, t: Tid, m: nat, pos: nat, got: Option<T>)
    requires Trace(ss, es) && m < |es| && HasPopped(ss, es, t, m, pos, got)
    requires es[m].tid == t ==> ss[m + 1].pushed == ss[m].pushed && ss[m + 1].head == ss[m].head
    ensures HasPopped(ss, es, t, m + 1, pos, got)
  {
    var n: nat :| PoppedAt(ss, es, t, m, n) && ss[n].head == pos && got == Some(ss[n].pushed[pos]);
    OnlyAtOn(ss, es, t, m, n);
    assert PoppedAt(ss, es, t, m + 1, n);
  }

  lemma PushWaits<T>(ss: seq<State<T>>, es: seq<Event<T>>, t: Tid, m: nat, x: T)
    requires OneCall(ss, es, t) && 0 < m < |es| && es[m].tid != t && PushStands(ss, es, t, m, x)
    ensures PushStands(ss, es, t, m + 1, x)
  {
    TraceInv(ss, es, m);
    OtherMoves(ss[m], es[m], t);
    if At(ss[m], t).PushWrite? || At(ss[m], t).PushPublish? {
      HasPushedOn(ss, es, t, m, x, At(ss[m], t).pos);
    } else {
      QuietOn(ss, es, t, 0, m);
    }
  }

  lemma PushEnds<T>(ss: seq<State<T>>, es: seq<Event<T>>, t: Tid, m: nat, x: T)
    requires OneCall(ss, es, t) && 0 < m < |es| && es[m].tid == t && PushStands(ss, es, t, m, x)
    requires At(ss[m], t).PushWrite? || At(ss[m], t).PushPublish?
    ensures PushStands(ss, es, t, m + 1, x)
  {
    TraceInv(ss, es, m);
    NoClaim(ss[m], es[m]);
    PushCompletes(ss[m], es[m], x);
    HasPushedOn(ss, es, t, m, x, At(ss[m], t).pos);
  }

  lemma PushActs<T>(ss: seq<State<T>>, es: seq<Event<T>>, t: Tid, m: nat, x: T)
    requires OneCall(ss, es, t) && 0 < m < |es| && es[m].tid == t && PushStands(ss, es, t, m, x)
    requires !At(ss[m], t).PushWrite? && !At(ss[m], t).PushPublish?
    ensures PushStands(ss, es, t, m + 1, x)
  {
    TraceInv(ss, es, m);
    if At(ss[m + 1], t).PushWrite? {
      PushClaims(ss[m], es[m], x);
      assert PushedAt(ss, es, t, m + 1, m, x);
    } else {
      NoClaim(ss[m], es[m]);
      PushSearches(ss[m], es[m], x);
      QuietOn(ss, es, t, 0, m);
    }
  }

  lemma PopSearches<T>(s: State<T>, e: Event<T>)
    requires Inv(s) && InPop(At(s, e.tid)) && !At(s, e.tid).PopMove? && !At(s, e.tid).PopRelease?
    requires !At(Step(Unbounded, s, e), e.tid).PopMove?
    ensures var pc := At(Step(Unbounded, s, e), e.tid);
            || pc.PopLoadSeq? || pc.PopCas? || pc.PopReload?
            || (pc == Returned(PopFailed) && NothingReady(s))
  {
    PopGivesUp(s, e);
  }

  lemma PopClaims<T>(s: State<T>, e: Event<T>)
    requires Inv(s) && InPop(At(s, e.tid)) && At(Step(Unbounded, s, e), e.tid).PopMove?
    ensures var s' := Step(Unbounded, s, e);
            && At(s', e.tid) == PopMove(s.head) && s'.pushed == s.pushed && s'.head == s.head + 1
            && s.head < s.tail == |s.pushed|
  {
    assert At(s, e.tid).PopCas?;
    PopRefinesQueue(s, e);
  }

  lemma PopCompletes<T>(s: State<T>, e: Event<T>)
    requires Inv(s) && (At(s, e.tid).PopMove? || At(s, e.tid).PopRelease?)
    ensures var pc := At(s, e.tid);
            && pc.pos < |s.pushed|
            && At(Step(Unbounded, s, e), e.tid) ==
               if pc.PopMove? then PopRelease(pc.pos, Some(s.pushed[pc.pos])) else Returned(PopDone(pc.got))
  {
    assert ThreadOk(s, e.tid);
  }

  lemma PopWaits<T>(ss: seq<State<T>>, es: seq<Event<T>>, t: Tid, m: nat)
    requires OneCall(ss, es, t) && 0 < m < |es| && es[m].tid != t && PopStands(ss, es, t, m)
    ensures PopStands(ss, es, t, m + 1)
  {
    TraceInv(ss, es, m);
    OtherMoves(ss[m], es[m], t);
    var pc := At(ss[m], t);
    if pc.PopMove? {
      TraceExtends(ss, es, m, m + 1);
      HasPoppedOn(ss, es, t, m, pc.pos, Some(ss[m].pushed[pc.pos]));
    } else if pc.PopRelease? {
      HasPoppedOn(ss, es, t, m, pc.pos, pc.got);
    } else {
      QuietOn(ss, es, t, 0, m);
    }
  }

  lemma PopTakesItem<T>(ss: seq<State<T>>, es: seq<Event<T>>, t: Tid, m: nat)
    requires OneCall(ss, es, t) && 0 < m < |es| && es[m].tid == t && PopStands(ss, es, t, m)
    requires At(ss[m], t).PopMove?
    ensures PopStands(ss, es, t, m + 1)
  {
    TraceInv(ss, es, m);
    var pos := At(ss[m], t).pos;
    NoClaim(ss[m], es[m]);
    PopCompletes(ss[m], es[m]);
    HasPoppedOn(ss, es, t, m, pos, Some(ss[m].pushed[pos]));
  }

  lemma PopEnds<T>(ss: seq<State<T>>, es: seq<Event<T>>, t: Tid, m: nat)
    requires OneCall(ss, es, t) && 0 < m < |es| && es[m].tid == t && PopStands(ss, es, t, m)
    requires At(ss[m], t).PopRelease?
    ensures PopStands(ss, es, t, m + 1)
  {
    TraceInv(ss, es, m);
    var pc := At(ss[m], t);
    NoClaim(ss[m], es[m]);
    PopCompletes(ss[m], es[m]);
    HasPoppedOn(ss, es, t, m, pc.pos, pc.got);
  }

  lemma PopActs<T>(ss: seq<State<T>>, es: seq<Event<T>>, t: Tid, m: nat)
    requires OneCall(ss, es, t) && 0 < m < |es| && es[m].tid == t && PopStands(ss, es, t, m)
    requires !At(ss[m], t).PopMove? && !At(ss[m], t).PopRelease?
    ensures PopStands(ss, es, t, m + 1)
  {
    TraceInv(ss, es, m);
    if At(ss[m + 1], t).PopMove? {
      PopClaims(ss[m], es[m]);
      assert PoppedAt(ss, es, t, m + 1, m);
    } else {
      NoClaim(ss[m], es[m]);
      PopSearches(ss[m], es[m]);
      QuietOn(ss, es, t, 0, m);
    }
  }

  lemma SizeMoves<T>(ss: seq<State<T>>, es: seq<Event<T>>, t: Tid, m: nat)
    requires OneCall(ss, es, t) && 0 < m < |es| && SizeStands(ss, es, t, m)
    ensures SizeStands(ss, es, t, m + 1)
  {
    TraceInv(ss, es, m);
    if es[m].tid == t {
      NoClaim(ss[m], es[m]);
      QuietOn(ss, es, t, 0, m);
      if At(ss[m], t).SizeLoadHead? {
        SizeLoadsHead(ss, es, t, m);
      } else {
        SizeEnds(ss, es, t, m);
      }
    } else {
      OtherMoves(ss[m], es[m], t);
      QuietOn(ss, es, t, 0, m);
    }
  }

  lemma SizeLoadsHead<T>(ss: seq<State<T>>, es: seq<Event<T>>, t: Tid, m: nat)
    requires OneCall(ss, es, t) && 0 < m < |es| && es[m].tid == t && At(ss[m], t).SizeLoadHead?
    ensures At(ss[m + 1], t).SizeLoadTail? && SawHead(ss, es, t, m + 1, At(ss[m + 1], t).headSeen)
  {
    assert At(ss[m + 1], t).headSeen == ss[m].head;
  }

  lemma SizeResult<T>(s: State<T>, e: Event<T>)
    requires Inv(s) && At(s, e.tid).SizeLoadTail?
    ensures var h := At(s, e.tid).headSeen;
            h <= s.tail && At(Step(Unbounded, s, e), e.tid) == Returned(SizeDone(s.tail - h))
  {
    assert ThreadOk(s, e.tid);
  }

  lemma SizeEnds<T>(ss: seq<State<T>>, es: seq<Event<T>>, t: Tid, m: nat)
    requires OneCall(ss, es, t) && 0 < m < |es| && es[m].tid == t
    requires At(ss[m], t).SizeLoadTail? && SawHead(ss, es, t, m, At(ss[m], t).headSeen)
    ensures At(ss[m + 1], t).Returned? && At(ss[m + 1], t).result.SizeDone?
    ensures Measured(ss, es, t, m + 1, At(ss[m + 1], t).result.size)
  {
    TraceInv(ss, es, m);
    SizeResult(ss[m], es[m]);
    assert MeasuredAt(ss, es, t, m, At(ss[m + 1], t).result.size);
  }

  // ---------- the whole call ----------

  lemma Begins<T>(ss: seq<State<T>>, es: seq<Event<T>>, t: Tid)
    requires OneCall(ss, es, t)
    ensures Stands(ss, es, t, 1)
  {
    NoClaim(ss[0], es[0]);
  }

  lemma StandsOn<T>(ss: seq<State<T>>, es: seq<Event<T>>, t: Tid, m: nat)
    requires OneCall(ss, es, t) && 0 < m < |es| && Stands(ss, es, t, m)
    ensures Stands(ss, es, t, m + 1)
  {
    var pc := At(ss[m], t);
    match es[0].call
    case CallPush(x) =>
      if es[m].tid != t {
        PushWaits(ss, es, t, m, x);
      } else if pc.PushWrite? || pc.PushPublish? {
        PushEnds(ss, es, t, m, x);
      } else {
        PushActs(ss, es, t, m, x);
      }
    case CallPop =>
      if es[m].tid != t {
        PopWaits(ss, es, t, m);
      } else if pc.PopMove? {
        PopTakesItem(ss, es, t, m);
      } else if pc.PopRelease? {
        PopEnds(ss, es, t, m);
      } else {
        PopActs(ss, es, t, m);
      }
    case CallSize => SizeMoves(ss, es, t, m);
  }

  lemma {:induction false} StandsUpTo<T>(ss: seq<State<T>>, es: seq<Event<T>>, t: Tid, m: nat)
    requires OneCall(ss, es, t) && 0 < m <= |es|
    ensures Stands(ss, es, t, m)
    decreases m
  {
    if m == 1 {
      Begins(ss, es, t);
    } else {
      StandsUpTo(ss, es, t, m - 1);
      StandsOn(ss, es, t, m - 1);
    }
  }

  /**
   In every run, every call does what it was asked for and answers accordingly.  A Push of `x` that returns true
   appended `x`, and nothing else, in exactly one of its steps, at which there was room, and has published it; one
   that returns false appended nothing and saw no room.  A Pop that returns an item removed it, as the oldest, in
   exactly one of its steps; one that fails removed nothing and saw nothing ready.  Size returns the tail at its
   second load less the head at its first.
   */
  lemma EveryAnswerFitsItsCall<T>(ss: seq<State<T>>, es: seq<Event<T>>, t: Tid)
    requires OneCall(ss, es, t) && At(ss[|es|], t).Returned?
    ensures match (es[0].call, At(ss[|es|], t).result)
            case (CallPush(x), PushDone(true)) =>
              exists pos: nat :: HasPushed(ss, es, t, |es|, x, pos) && IsPublished(ss[|es|], pos)
            case (CallPush(_), PushDone(false)) => Quiet(ss, es, t, 0, |es|) && SawNoRoom(ss, es, t, |es|)
            case (CallPop, PopDone(got)) => exists pos: nat :: HasPopped(ss, es, t, |es|, pos, got)
            case (CallPop, PopFailed) => Quiet(ss, es, t, 0, |es|) && SawNothingReady(ss, es, t, |es|)
            case (CallSize, SizeDone(z)) => Quiet(ss, es, t, 0, |es|) && Measured(ss, es, t, |es|, z)
            case _ => false
  {
    StandsUpTo(ss, es, t, |es|);
  }

  /** And while a Push of `x` is under way, it carries `x` and pushes nothing else. */
  lemma PushKeepsItsItem<T>(ss: seq<State<T>>, es: seq<Event<T>>, t: Tid, x: T)
    requires OneCall(ss, es, t) && es[0].call == CallPush(x) && InCall(At(ss[|es|], t))
    ensures InPush(At(ss[|es|], t)) && At(ss[|es|], t).x == x
    ensures forall n | 0 <= n < |es| && es[n].tid == t ::
              ss[n + 1].pushed == ss[n].pushed || ss[n + 1].pushed == ss[n].pushed + [x]
  {
    StandsUpTo(ss, es, t, |es|);
  }
}
