/** `parallel::Sort`: sorted chunks and their k-way merge. */
module SortModel {
  import opened Words
  import opened Chunks
  import opened Pieces
  import opened ParallelForModel

  /** Asymmetric, and an element compares with at least one of any two ordered ones. */
  ghost predicate StrictWeakOrder<T(!new)>(lt: (T, T) -> bool) {
    && (forall a, b :: lt(a, b) ==> !lt(b, a))
    && (forall a, b, c :: lt(a, b) ==> lt(a, c) || lt(c, b))
  }

  ghost predicate Sorted<T>(lt: (T, T) -> bool, xs: seq<T>) {
    forall i, j | 0 <= i < j < |xs| :: !lt(xs[j], xs[i])
  }

  /** What is assumed of `std::sort`. */
  ghost predicate IsSorter<T(!new)>(sort: seq<T> -> seq<T>, lt: (T, T) -> bool) {
    forall xs :: Sorted(lt, sort(xs)) && multiset(sort(xs)) == multiset(xs)
  }

  // ---------- the order in which the merge must emit elements ----------

  /** The element at `index` of chunk `chunk`. */
  datatype Pos = Pos(chunk: nat, index: nat)

  ghost predicate IsPos<T>(chunks: seq<seq<T>>, p: Pos) {
    p.chunk < |chunks| && p.index < |chunks[p.chunk]|
  }

  function Value<T>(chunks: seq<seq<T>>, p: Pos): T
    requires IsPos(chunks, p)
  {
    chunks[p.chunk][p.index]
  }

  /** Smaller values first; among equivalent ones the lower chunk, and within a chunk the lower index. */
  ghost predicate Before<T>(lt: (T, T) -> bool, chunks: seq<seq<T>>, p: Pos, q: Pos)
    requires IsPos(chunks, p) && IsPos(chunks, q)
  {
    || lt(Value(chunks, p), Value(chunks, q))
    || (!lt(Value(chunks, q), Value(chunks, p)) &&
        (p.chunk < q.chunk || (p.chunk == q.chunk && p.index < q.index)))
  }

  /** `origin` lists every position of `chunks` once, in that order. */
  ghost predicate StableMerge<T>(lt: (T, T) -> bool, chunks: seq<seq<T>>, origin: seq<Pos>) {
    && (forall k | 0 <= k < |origin| :: IsPos(chunks, origin[k]))
    && (forall k, l | 0 <= k < l < |origin| :: Before(lt, chunks, origin[k], origin[l]))
    && (forall p | IsPos(chunks, p) :: p in origin)
  }

  lemma BeforeAsymmetric<T(!new)>(lt: (T, T) -> bool, chunks: seq<seq<T>>, p: Pos, q: Pos)
    requires StrictWeakOrder(lt) && IsPos(chunks, p) && IsPos(chunks, q) && Before(lt, chunks, p, q)
    ensures p != q && !Before(lt, chunks, q, p)
  {
  }

  /** Where two listings first differ, each would have to come before the other. */
  lemma StableMergeAgreesOrBefore<T(!new)>(
      lt: (T, T) -> bool, chunks: seq<seq<T>>, o: seq<Pos>, o': seq<Pos>, k: nat)
    requires StrictWeakOrder(lt) && StableMerge(lt, chunks, o) && StableMerge(lt, chunks, o')
    requires k < |o| && k <= |o'| && o[..k] == o'[..k]
    ensures k < |o'| && (o[k] == o'[k] || Before(lt, chunks, o'[k], o[k]))
  {
    forall i | 0 <= i < k ensures o'[i] != o[k] {
      assert o'[i] == o'[..k][i] == o[..k][i] == o[i];
      BeforeAsymmetric(lt, chunks, o[i], o[k]);
    }
    var l :| 0 <= l < |o'| && o'[l] == o[k];
  }

  lemma StableMergeAgrees<T(!new)>(lt: (T, T) -> bool, chunks: seq<seq<T>>, o: seq<Pos>, o': seq<Pos>, k: nat)
    requires StrictWeakOrder(lt) && StableMerge(lt, chunks, o) && StableMerge(lt, chunks, o')
    requires k < |o| && k <= |o'| && o[..k] == o'[..k]
    ensures k < |o'| && o[k] == o'[k]
  {
    StableMergeAgreesOrBefore(lt, chunks, o, o', k);
    StableMergeAgreesOrBefore(lt, chunks, o', o, k);
    if Before(lt, chunks, o'[k], o[k]) {
      BeforeAsymmetric(lt, chunks, o'[k], o[k]);
    }
  }

  /** The order is strict and total, so it leaves no choice: the merge's output is determined. */
  lemma StableMergeUnique<T(!new)>(lt: (T, T) -> bool, chunks: seq<seq<T>>, o: seq<Pos>, o': seq<Pos>)
    requires StrictWeakOrder(lt) && StableMerge(lt, chunks, o) && StableMerge(lt, chunks, o')
    ensures o == o'
  {
    var k := 0;
    while k < |o|
      invariant k <= |o| && k <= |o'| && o[..k] == o'[..k]
    {
      StableMergeAgrees(lt, chunks, o, o', k);
      k := k + 1;
    }
    if |o| < |o'| {
      StableMergeAgrees(lt, chunks, o', o, |o|);
    }
  }

  // ---------- taking elements from the chunks ----------

  ghost predicate Indexes<T>(chunks: seq<seq<T>>, indices: seq<nat>) {
    |indices| == |chunks| && forall k | 0 <= k < |chunks| :: indices[k] <= |chunks[k]|
  }

  ghost predicate Remaining<T>(chunks: seq<seq<T>>, indices: seq<nat>, p: Pos)
    requires Indexes(chunks, indices)
  {
    IsPos(chunks, p) && indices[p.chunk] <= p.index
  }

  /** The part of each chunk that has been taken. */
  function Prefixes<T>(chunks: seq<seq<T>>, indices: seq<nat>): (r: seq<seq<T>>)
    requires Indexes(chunks, indices)
    ensures |r| == |chunks| && forall k | 0 <= k < |chunks| :: r[k] == chunks[k][..indices[k]]
  {
    seq(|chunks|, k requires 0 <= k < |chunks| => chunks[k][..indices[k]])
  }

  /** What has been taken, chunk after chunk. */
  function Taken<T>(chunks: seq<seq<T>>, indices: seq<nat>): seq<T>
    requires Indexes(chunks, indices)
  {
    Concat(Prefixes(chunks, indices))
  }

  lemma TakenBound<T>(chunks: seq<seq<T>>, indices: seq<nat>)
    requires Indexes(chunks, indices)
    ensures |Taken(chunks, indices)| <= |Concat(chunks)|
    ensures (forall k | 0 <= k < |chunks| :: indices[k] == |chunks[k]|) ==> Taken(chunks, indices) == Concat(chunks)
  {
    ConcatShorter(Prefixes(chunks, indices), chunks);
    if forall k | 0 <= k < |chunks| :: indices[k] == |chunks[k]| {
      var prefixes := Prefixes(chunks, indices);
      forall k | 0 <= k < |chunks| ensures prefixes[k] == chunks[k] {
        assert prefixes[k] == chunks[k][..indices[k]];
      }
      assert prefixes == chunks;
    }
  }

  lemma TakeOne<T>(chunks: seq<seq<T>>, indices: seq<nat>, b: nat)
    requires Indexes(chunks, indices) && b < |chunks| && indices[b] < |chunks[b]|
    ensures Indexes(chunks, indices[b := indices[b] + 1])
    ensures multiset(Taken(chunks, indices[b := indices[b] + 1])) ==
            multiset(Taken(chunks, indices) + [chunks[b][indices[b]]])
    ensures |Taken(chunks, indices[b := indices[b] + 1])| == |Taken(chunks, indices)| + 1
  {
    var x, before := chunks[b][indices[b]], Prefixes(chunks, indices);
    assert chunks[b][..indices[b] + 1] == before[b] + [x];
    assert Prefixes(chunks, indices[b := indices[b] + 1]) == before[b := before[b] + [x]];
    ConcatGrow(before, b, x);
  }

  /** Once as much has been taken as there is, every chunk is exhausted. */
  lemma TakenAll<T>(chunks: seq<seq<T>>, indices: seq<nat>)
    requires Indexes(chunks, indices) && |Taken(chunks, indices)| >= |Concat(chunks)|
    ensures forall k | 0 <= k < |chunks| :: indices[k] == |chunks[k]|
  {
    forall b | 0 <= b < |chunks| ensures indices[b] == |chunks[b]| {
      if indices[b] < |chunks[b]| {
        TakeOne(chunks, indices, b);
        TakenBound(chunks, indices[b := indices[b] + 1]);
      }
    }
  }

  // ---------- one round of the merge ----------

  /** Chunk `b` is the first whose head is minimal among the heads of the chunks before `n`. */
  ghost predicate Best<T>(lt: (T, T) -> bool, chunks: seq<seq<T>>, indices: seq<nat>, b: nat, n: nat)
    requires Indexes(chunks, indices) && n <= |chunks|
  {
    && b < n && indices[b] < |chunks[b]|
    && (forall j | 0 <= j < b && indices[j] < |chunks[j]| :: lt(chunks[b][indices[b]], chunks[j][indices[j]]))
    && (forall j | b < j < n && indices[j] < |chunks[j]| :: !lt(chunks[j][indices[j]], chunks[b][indices[b]]))
  }

  lemma Weaken<T(!new)>(lt: (T, T) -> bool, a: T, b: T, c: T)
    requires StrictWeakOrder(lt)
    ensures lt(a, b) && !lt(c, b) ==> lt(a, c)
    ensures !lt(b, a) && !lt(c, b) ==> !lt(c, a)
  {
  }

  /** A later head that beats the best so far beats every earlier head as well. */
  lemma BestReplaced<T(!new)>(lt: (T, T) -> bool, chunks: seq<seq<T>>, indices: seq<nat>, b: nat, i: nat)
    requires StrictWeakOrder(lt) && Indexes(chunks, indices) && i < |chunks| && Best(lt, chunks, indices, b, i)
    requires indices[i] < |chunks[i]| && lt(chunks[i][indices[i]], chunks[b][indices[b]])
    ensures Best(lt, chunks, indices, i, i + 1)
  {
    forall j | 0 <= j < i && indices[j] < |chunks[j]| ensures lt(chunks[i][indices[i]], chunks[j][indices[j]]) {
      if j != b {
        Weaken(lt, chunks[i][indices[i]], chunks[b][indices[b]], chunks[j][indices[j]]);
      }
    }
  }

  /** The best head comes before everything else that remains. */
  lemma BestIsBefore<T(!new)>(lt: (T, T) -> bool, chunks: seq<seq<T>>, indices: seq<nat>, b: nat, q: Pos)
    requires StrictWeakOrder(lt) && Indexes(chunks, indices) && Best(lt, chunks, indices, b, |chunks|)
    requires forall k | 0 <= k < |chunks| :: Sorted(lt, chunks[k])
    requires Remaining(chunks, indices, q) && q != Pos(b, indices[b])
    ensures Before(lt, chunks, Pos(b, indices[b]), q)
  {
    var head := chunks[q.chunk][indices[q.chunk]];
    assert q.index == indices[q.chunk] || !lt(Value(chunks, q), head) by {
      assert Sorted(lt, chunks[q.chunk]);
    }
    Weaken(lt, chunks[b][indices[b]], head, Value(chunks, q));
  }

  /** What has been emitted so far, and why it may precede everything that remains. */
  ghost predicate Emitted<T>(lt: (T, T) -> bool, chunks: seq<seq<T>>, indices: seq<nat>, origin: seq<Pos>)
    requires Indexes(chunks, indices)
  {
    && (forall k | 0 <= k < |origin| :: IsPos(chunks, origin[k]) && !Remaining(chunks, indices, origin[k]))
    && (forall p | IsPos(chunks, p) :: Remaining(chunks, indices, p) || p in origin)
    && (forall k, l | 0 <= k < l < |origin| :: Before(lt, chunks, origin[k], origin[l]))
    && (forall k, q | 0 <= k < |origin| && Remaining(chunks, indices, q) :: Before(lt, chunks, origin[k], q))
  }

  lemma EmitBest<T(!new)>(lt: (T, T) -> bool, chunks: seq<seq<T>>, indices: seq<nat>, origin: seq<Pos>, b: nat)
    requires StrictWeakOrder(lt) && Indexes(chunks, indices) && Best(lt, chunks, indices, b, |chunks|)
    requires forall k | 0 <= k < |chunks| :: Sorted(lt, chunks[k])
    requires Emitted(lt, chunks, indices, origin)
    ensures Indexes(chunks, indices[b := indices[b] + 1])
    ensures Emitted(lt, chunks, indices[b := indices[b] + 1], origin + [Pos(b, indices[b])])
  {
    var p, indices', origin' := Pos(b, indices[b]), indices[b := indices[b] + 1], origin + [Pos(b, indices[b])];
    assert Remaining(chunks, indices, p);
    forall q | IsPos(chunks, q) ensures Remaining(chunks, indices', q) || q in origin' {
      assert Remaining(chunks, indices, q) || q in origin;
      assert p == origin'[|origin|];
    }
    forall k, q | 0 <= k < |origin'| && Remaining(chunks, indices', q) ensures Before(lt, chunks, origin'[k], q) {
      assert Remaining(chunks, indices, q);
      if k == |origin| {
        BestIsBefore(lt, chunks, indices, b, q);
      }
    }
  }

  /** The k-way merge: stable by chunk, losing and repeating nothing; its early exit is never taken. */
  method MergeChunks<T(!new)>(lt: (T, T) -> bool, chunks: seq<seq<T>>, size: nat)
    returns (result: seq<T>, ghost origin: seq<Pos>)
    requires StrictWeakOrder(lt) && size == |Concat(chunks)|
    requires forall k | 0 <= k < |chunks| :: Sorted(lt, chunks[k])
    ensures StableMerge(lt, chunks, origin) && |origin| == |result|
    ensures forall k | 0 <= k < |result| :: result[k] == Value(chunks, origin[k])
    ensures multiset(result) == multiset(Concat(chunks)) && Sorted(lt, result)
  {
    result, origin := [], [];
    var indices := seq(|chunks|, _ => 0);
    var exhausted := seq(|chunks|, _ => false);
    ConcatEmpties(Prefixes(chunks, indices));
    while |result| < size
      invariant Indexes(chunks, indices) && |exhausted| == |chunks| && |origin| == |result| <= size
      invariant forall k | 0 <= k < |chunks| && exhausted[k] :: indices[k] == |chunks[k]|
      invariant multiset(result) == multiset(Taken(chunks, indices)) && |result| == |Taken(chunks, indices)|
      invariant Emitted(lt, chunks, indices, origin)
      invariant forall k | 0 <= k < |result| :: result[k] == Value(chunks, origin[k])
    {
      var b := FindBest(lt, chunks, indices, exhausted, size);
      TakeBest(chunks, indices, b, result);
      EmitBest(lt, chunks, indices, origin, b);
      origin := origin + [Pos(b, indices[b])];
      result := result + [chunks[b][indices[b]]];
      indices := indices[b := indices[b] + 1];
      if indices[b] >= |chunks[b]| {
        exhausted := exhausted[b := true];
      }
    }
    MergeDone(lt, chunks, indices, origin, result);
  }

  lemma MergeDone<T(!new)>(
      lt: (T, T) -> bool, chunks: seq<seq<T>>, indices: seq<nat>, origin: seq<Pos>, result: seq<T>)
    requires StrictWeakOrder(lt) && Indexes(chunks, indices) && Emitted(lt, chunks, indices, origin)
    requires multiset(result) == multiset(Taken(chunks, indices)) && |result| == |Taken(chunks, indices)|
    requires |result| >= |Concat(chunks)| && |origin| == |result|
    requires forall k | 0 <= k < |result| :: result[k] == Value(chunks, origin[k])
    ensures StableMerge(lt, chunks, origin) && multiset(result) == multiset(Concat(chunks)) && Sorted(lt, result)
  {
    TakenAll(chunks, indices);
    TakenBound(chunks, indices);
    StableIsSorted(lt, chunks, origin, result);
  }

  /** One more emitted element in the result's bookkeeping. */
  lemma TakeBest<T>(chunks: seq<seq<T>>, indices: seq<nat>, b: nat, result: seq<T>)
    requires Indexes(chunks, indices) && b < |chunks| && indices[b] < |chunks[b]|
    requires multiset(result) == multiset(Taken(chunks, indices)) && |result| == |Taken(chunks, indices)|
    ensures Indexes(chunks, indices[b := indices[b] + 1])
    ensures multiset(result + [chunks[b][indices[b]]]) == multiset(Taken(chunks, indices[b := indices[b] + 1]))
    ensures |result| + 1 == |Taken(chunks, indices[b := indices[b] + 1])| <= |Concat(chunks)|
  {
    TakeOne(chunks, indices, b);
    TakenBound(chunks, indices[b := indices[b] + 1]);
  }

  lemma StableIsSorted<T(!new)>(lt: (T, T) -> bool, chunks: seq<seq<T>>, origin: seq<Pos>, result: seq<T>)
    requires StrictWeakOrder(lt) && StableMerge(lt, chunks, origin) && |origin| == |result|
    requires forall k | 0 <= k < |result| :: result[k] == Value(chunks, origin[k])
    ensures Sorted(lt, result)
  {
    forall i, j | 0 <= i < j < |result| ensures !lt(result[j], result[i]) {
      assert Before(lt, chunks, origin[i], origin[j]);
    }
  }

  /** The scan over the chunk heads.  While elements remain it always finds one. */
  method FindBest<T(!new)>(
      lt: (T, T) -> bool, chunks: seq<seq<T>>, indices: seq<nat>, exhausted: seq<bool>, ghost size: nat)
    returns (b: nat)
    requires StrictWeakOrder(lt) && Indexes(chunks, indices) && |exhausted| == |chunks|
    requires forall k | 0 <= k < |chunks| && exhausted[k] :: indices[k] == |chunks[k]|
    requires |Taken(chunks, indices)| < size == |Concat(chunks)|
    ensures Best(lt, chunks, indices, b, |chunks|)
  {
    b := 0;
    var found := false;
    for i := 0 to |chunks|
      invariant found ==> Best(lt, chunks, indices, b, i)
      invariant !found ==> forall j | 0 <= j < i :: indices[j] == |chunks[j]|
    {
      if !exhausted[i] && indices[i] < |chunks[i]| {
        if !found || lt(chunks[i][indices[i]], chunks[b][indices[b]]) {
          if found {
            BestReplaced(lt, chunks, indices, b, i);
          }
          b, found := i, true;
        }
      }
    }
    if !found {
      TakenBound(chunks, indices);
      assert false;
    }
  }

  // ---------- the whole function ----------

  class Vector<T> {
    var items: seq<T>

    constructor (items: seq<T>)
      ensures this.items == items
    {
      this.items := items;
    }
  }

  /** The chunk tasks, finishing in any order. */
  method SortChunks<T(!new)>(lt: (T, T) -> bool, sort: seq<T> -> seq<T>, xs: seq<T>, chunks: seq<Chunk>, n: nat)
    returns (sorted: seq<seq<T>>)
    requires IsSorter(sort, lt) && Within(chunks, |xs|) && |chunks| <= n
    ensures |sorted| == n
    ensures forall k | 0 <= k < n :: Sorted(lt, sorted[k]) && multiset(sorted[k]) == multiset(Slices(xs, chunks, n)[k])
  {
    sorted := seq(n, _ => []);
    RangeBounds(0, |chunks|);
    var running: set<nat> := set k: nat | k in Range(0, |chunks|);
    ghost var slices := Slices(xs, chunks, n);
    while running != {}
      invariant |sorted| == n && forall k | k in running :: k < |chunks|
      invariant forall k | 0 <= k < n && k !in running ::
                  Sorted(lt, sorted[k]) && multiset(sorted[k]) == multiset(slices[k])
      decreases |running|
    {
      var k :| k in running;
      sorted := sorted[k := sort(xs[chunks[k].begin..chunks[k].end])];
      running := running - {k};
    }
  }

  lemma {:induction false} ConcatSameItems<T>(a: seq<seq<T>>, b: seq<seq<T>>)
    requires |a| == |b| && forall k | 0 <= k < |a| :: multiset(a[k]) == multiset(b[k])
    ensures multiset(Concat(a)) == multiset(Concat(b)) && |Concat(a)| == |Concat(b)|
    decreases |a|
  {
    if a == [] {
    } else {
      ConcatSameItems(a[1..], b[1..]);
      assert |multiset(a[0])| == |a[0]| && |multiset(b[0])| == |b[0]|;
    }
  }

  /** The parallel path: split, sort the chunks, merge. */
  method SortInChunks<T(!new)>(xs: seq<T>, lt: (T, T) -> bool, sort: seq<T> -> seq<T>, n: nat) returns (result: seq<T>)
    requires StrictWeakOrder(lt) && IsSorter(sort, lt) && 0 < n <= |xs| && |xs| + n < WORD
    ensures Sorted(lt, result) && multiset(result) == multiset(xs)
  {
    var chunks := SubmitChunks(0, |xs|, WordPlus(|xs|, n - 1) / n, n);
    SimpleFit(0, |xs|, n);
    WordSplitFits(0, |xs|, n);
    SlicesCover(xs, n);
    var sorted := SortChunks(lt, sort, xs, chunks, n);
    ConcatSameItems(sorted, Slices(xs, chunks, n));
    ghost var origin;
    result, origin := MergeChunks(lt, sorted, |xs|);
  }

  /**
   For any strict weak order, any pool and any number of hardware threads the container ends up sorted and
   permuted.
   */
  method Sort<T(!new)>(container: Vector<T>, lt: (T, T) -> bool, sort: seq<T> -> seq<T>, hasPool: bool, hardware: nat)
    requires StrictWeakOrder(lt) && IsSorter(sort, lt) && |container.items| + hardware < WORD
    modifies container
    ensures Sorted(lt, container.items) && multiset(container.items) == old(multiset(container.items))
  {
    var size := |container.items|;
    if size <= 1 {
      return;
    }
    if !hasPool || size < 10000 {
      container.items := sort(container.items);
      return;
    }
    var n := Min(hardware, size / 1000);
    if n <= 1 {
      container.items := sort(container.items);
      return;
    }
    container.items := SortInChunks(container.items, lt, sort, n);
  }
}
