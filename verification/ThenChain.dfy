/**
 Chains of `Then`.  Each link is a detached thread that waits for the state before it, runs its function and sets
 the state after it; the links and the setter of the first state interleave in any way.
 */
module ThenChain {
  import opened Prelude
  import opened FutureModel

  /** A continuation: it may return a value or throw. */
  type Func<!T> = T -> Outcome<T>

  datatype Link<T> = Waiting | Calling(v: T) | Delivering(o: Outcome<T>) | Finished

  /** `calls` is history: how often each function was called. */
  datatype ChainState<T> = ChainState(cells: seq<Option<Outcome<T>>>, links: seq<Link<T>>, calls: seq<nat>)

  datatype Event<T> = SetFirst(o: Outcome<T>) | Move(link: nat)

  function Init<T>(n: nat): (s: ChainState<T>)
  {
    ChainState(seq(n + 1, _ => None), seq(n, _ => Waiting), seq(n, _ => 0))
  }

  predicate Shape<T>(fs: seq<Func<T>>, s: ChainState<T>) {
    |s.cells| == |fs| + 1 && |s.links| == |fs| == |s.calls|
  }

  function Step<T>(fs: seq<Func<T>>, s: ChainState<T>, e: Event<T>): (s': ChainState<T>)
    requires Shape(fs, s)
    ensures Shape(fs, s')
  {
    match e
    case SetFirst(o) => if s.cells[0].Some? then s else s.(cells := s.cells[0 := Some(o)])
    case Move(k) => if k < |fs| then MoveLink(fs, s, k) else s
  }

  function MoveLink<T>(fs: seq<Func<T>>, s: ChainState<T>, k: nat): (s': ChainState<T>)
    requires Shape(fs, s) && k < |fs|
    ensures Shape(fs, s')
  {
    match s.links[k]
    case Waiting =>
      (match s.cells[k]
       case None => s
       case Some(Value(v)) => s.(links := s.links[k := Calling(v)])
       case Some(Exception(id)) => s.(links := s.links[k := Delivering(Exception(id))]))
    case Calling(v) => s.(links := s.links[k := Delivering(fs[k](v))], calls := s.calls[k := s.calls[k] + 1])
    case Delivering(o) =>
      // the promise is private to this link; were it satisfied already, the link would be stuck
      if s.cells[k + 1].Some? then s
      else s.(cells := s.cells[k + 1 := Some(o)], links := s.links[k := Finished])
    case Finished => s
  }

  function Run<T>(fs: seq<Func<T>>, s: ChainState<T>, es: seq<Event<T>>): (s': ChainState<T>)
    requires Shape(fs, s)
    ensures Shape(fs, s')
  {
    if es == [] then s else Step(fs, Run(fs, s, es[..|es| - 1]), es[|es| - 1])
  }

  // ---------- what a chain means ----------

  /** One continuation applied to an outcome: exceptions pass it by. */
  function Apply<T>(f: Func<T>, o: Outcome<T>): Outcome<T> {
    match o
    case Value(v) => f(v)
    case Exception(_) => o
  }

  /** The functions applied in order. */
  function Chain<T>(fs: seq<Func<T>>, o: Outcome<T>): Outcome<T> {
    if fs == [] then o else Apply(fs[|fs| - 1], Chain(fs[..|fs| - 1], o))
  }

  /** `f` and then `g` as a single continuation. */
  function Compose<T>(f: Func<T>, g: Func<T>): Func<T> {
    (v: T) => Apply(g, f(v))
  }

  lemma {:induction false} ChainConcat<T>(fs: seq<Func<T>>, gs: seq<Func<T>>, o: Outcome<T>)
    ensures Chain(fs + gs, o) == Chain(gs, Chain(fs, o))
    decreases |gs|
  {
    if gs == [] {
      assert fs + gs == fs;
    } else {
      ChainConcat(fs, gs[..|gs| - 1], o);
      assert (fs + gs)[..|fs + gs| - 1] == fs + gs[..|gs| - 1];
    }
  }

  lemma ComposeTwo<T>(f: Func<T>, g: Func<T>, o: Outcome<T>)
    ensures Chain([f, g], o) == Chain([Compose(f, g)], o)
  {
    assert [f, g][..1] == [f] && [f][..0] == [] && [Compose(f, g)][..0] == [];
    assert Chain([f], o) == Apply(f, Chain([], o));
    assert Chain([Compose(f, g)], o) == Apply(Compose(f, g), Chain([], o));
  }

  /** Anywhere in a chain, two neighbouring links may be replaced by one that runs both functions. */
  lemma ComposeAnywhere<T>(before: seq<Func<T>>, f: Func<T>, g: Func<T>, after: seq<Func<T>>, o: Outcome<T>)
    ensures Chain(before + [f, g] + after, o) == Chain(before + [Compose(f, g)] + after, o)
  {
    ChainConcat(before + [f, g], after, o);
    ChainConcat(before, [f, g], o);
    ChainConcat(before + [Compose(f, g)], after, o);
    ChainConcat(before, [Compose(f, g)], o);
    ComposeTwo(f, g, Chain(before, o));
  }

  // ---------- every schedule computes it ----------

  ghost predicate LinkOk<T>(fs: seq<Func<T>>, s: ChainState<T>, k: nat)
    requires Shape(fs, s) && k < |fs|
  {
    var first := s.cells[0];
    && (s.cells[k + 1].Some? <==> s.links[k].Finished?)
    && (!s.links[k].Waiting? ==> s.cells[k].Some?)
    && (s.cells[k + 1].Some? ==> first.Some? && s.cells[k + 1] == Some(Chain(fs[..k + 1], first.value)))
    && (match s.links[k]
        case Waiting => s.calls[k] == 0
        case Calling(v) => s.calls[k] == 0 && s.cells[k] == Some(Value(v))
        case Delivering(o) =>
          first.Some? && s.cells[k].Some? && o == Chain(fs[..k + 1], first.value) &&
          s.calls[k] == (if s.cells[k].value.Value? then 1 else 0)
        case Finished => s.cells[k].Some? && s.calls[k] == (if s.cells[k].value.Value? then 1 else 0))
  }

  ghost predicate Inv<T>(fs: seq<Func<T>>, s: ChainState<T>) {
    Shape(fs, s) && forall k | 0 <= k < |fs| :: LinkOk(fs, s, k)
  }

  /** A set cell holds what the functions before it make of the first outcome. */
  lemma CellValue<T>(fs: seq<Func<T>>, s: ChainState<T>, k: nat)
    requires Inv(fs, s) && k <= |fs| && s.cells[k].Some?
    ensures s.cells[0].Some? && s.cells[k].value == Chain(fs[..k], s.cells[0].value)
  {
    if k == 0 {
      assert fs[..0] == [];
    } else {
      assert LinkOk(fs, s, k - 1);
    }
  }

  lemma ChainSnoc<T>(fs: seq<Func<T>>, k: nat, o: Outcome<T>)
    requires k < |fs|
    ensures Chain(fs[..k + 1], o) == Apply(fs[k], Chain(fs[..k], o))
  {
    assert fs[..k + 1][..k] == fs[..k];
  }

  lemma MoveInv<T>(fs: seq<Func<T>>, s: ChainState<T>, k: nat)
    requires Inv(fs, s) && k < |fs|
    ensures Inv(fs, MoveLink(fs, s, k))
  {
    var s' := MoveLink(fs, s, k);
    assert LinkOk(fs, s, k);
    if s.cells[k].Some? {
      CellValue(fs, s, k);
      ChainSnoc(fs, k, s.cells[0].value);
    }
    forall j | 0 <= j < |fs| ensures LinkOk(fs, s', j) {
      assert LinkOk(fs, s, j);
    }
  }

  lemma StepInv<T>(fs: seq<Func<T>>, s: ChainState<T>, e: Event<T>)
    requires Inv(fs, s)
    ensures Inv(fs, Step(fs, s, e))
  {
    match e
    case Move(k) =>
      if k < |fs| {
        MoveInv(fs, s, k);
      }
    case SetFirst(o) =>
      var s' := Step(fs, s, e);
      forall j | 0 <= j < |fs| ensures LinkOk(fs, s', j) {
        assert LinkOk(fs, s, j);
      }
  }

  lemma {:induction false} RunInv<T>(fs: seq<Func<T>>, s: ChainState<T>, es: seq<Event<T>>)
    requires Inv(fs, s)
    ensures Inv(fs, Run(fs, s, es))
    decreases |es|
  {
    if es == [] {
    } else {
      RunInv(fs, s, es[..|es| - 1]);
      StepInv(fs, Run(fs, s, es[..|es| - 1]), es[|es| - 1]);
    }
  }

  lemma InitInv<T>(fs: seq<Func<T>>)
    ensures Inv(fs, Init<T>(|fs|))
  {
  }

  /**
   For chains of any length and any schedule: every state that is set holds the fold of the functions over the
   first outcome.
   */
  lemma ChainPreservesMeaning<T>(fs: seq<Func<T>>, es: seq<Event<T>>, k: nat)
    requires k <= |fs|
    ensures Shape(fs, Init<T>(|fs|))
    ensures var s := Run(fs, Init<T>(|fs|), es);
            s.cells[k].Some? ==> s.cells[0].Some? && s.cells[k].value == Chain(fs[..k], s.cells[0].value)
  {
    InitInv(fs);
    RunInv(fs, Init<T>(|fs|), es);
    var s := Run(fs, Init<T>(|fs|), es);
    if s.cells[k].Some? {
      CellValue(fs, s, k);
    }
  }

  /** No function is called twice, and behind an exception none is called at all. */
  lemma {:induction false} ExceptionSkipsTheRest<T>(fs: seq<Func<T>>, s: ChainState<T>, k: nat, j: nat)
    requires Inv(fs, s) && k <= j < |fs|
    ensures s.calls[j] <= 1
    ensures s.cells[k].Some? && s.cells[k].value.Exception? ==>
              s.calls[j] == 0 && (s.cells[j + 1].Some? ==> s.cells[j + 1] == s.cells[k])
    decreases j - k
  {
    assert LinkOk(fs, s, j);
    if k == j {
    } else {
      ExceptionSkipsTheRest(fs, s, k, j - 1);
      assert LinkOk(fs, s, j - 1);
    }
    if s.cells[j + 1].Some? && s.cells[j].Some? {
      CellValue(fs, s, j);
      CellValue(fs, s, j + 1);
      ChainSnoc(fs, j, s.cells[0].value);
    }
  }

  /** No step changes a state that is set, upstream or anywhere else. */
  lemma {:induction false} SetStatesNeverChange<T>(fs: seq<Func<T>>, s: ChainState<T>, es: seq<Event<T>>, k: nat)
    requires Inv(fs, s) && k <= |fs| && s.cells[k].Some?
    ensures Run(fs, s, es).cells[k] == s.cells[k]
    decreases |es|
  {
    if es == [] {
    } else {
      SetStatesNeverChange(fs, s, es[..|es| - 1], k);
    }
  }

  // ---------- progress ----------

  function Rank<T>(link: Link<T>): nat {
    match link
    case Waiting => 3
    case Calling(_) => 2
    case Delivering(_) => 1
    case Finished => 0
  }

  function Remaining<T>(links: seq<Link<T>>): nat {
    if links == [] then 0 else Remaining(links[..|links| - 1]) + Rank(links[|links| - 1])
  }

  lemma {:induction false} RemainingUpdate<T>(links: seq<Link<T>>, k: nat, link: Link<T>)
    requires k < |links|
    ensures Remaining(links[k := link]) + Rank(links[k]) == Remaining(links) + Rank(link)
    decreases |links|
  {
    var n := |links| - 1;
    if k < n {
      RemainingUpdate(links[..n], k, link);
      assert links[k := link][..n] == links[..n][k := link];
    } else {
      assert links[k := link][..n] == links[..n];
    }
  }

  /**
   Once the first state is set, an unfinished chain always has a link that can move, and moving it brings the end
   nearer.
   */
  lemma ChainNeverStalls<T>(fs: seq<Func<T>>, s: ChainState<T>) returns (k: nat)
    requires Inv(fs, s) && s.cells[0].Some? && exists j :: 0 <= j < |fs| && !s.links[j].Finished?
    ensures k < |fs| && Remaining(Step(fs, s, Move(k)).links) < Remaining(s.links)
  {
    k := 0;
    while s.links[k].Finished?
      invariant k < |fs|
      invariant forall j | 0 <= j < k :: s.links[j].Finished?
      decreases |fs| - k
    {
      k := k + 1;
    }
    assert LinkOk(fs, s, k);
    if k > 0 {
      assert LinkOk(fs, s, k - 1);
    }
    RemainingUpdate(s.links, k, Step(fs, s, Move(k)).links[k]);
  }

  /** A finished chain holds the outcome of the whole chain in its last state. */
  lemma FinishedChainIsTheFold<T>(fs: seq<Func<T>>, s: ChainState<T>)
    requires Inv(fs, s) && s.cells[0].Some? && forall j | 0 <= j < |fs| :: s.links[j].Finished?
    ensures s.cells[|fs|] == Some(Chain(fs, s.cells[0].value))
  {
    if |fs| > 0 {
      assert LinkOk(fs, s, |fs| - 1);
    }
    CellValue(fs, s, |fs|);
    assert fs[..|fs|] == fs;
  }
}
