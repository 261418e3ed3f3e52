/** `parallel::Reduce` against the sequential left fold. */
module ReduceModel {
  import opened Words
  import opened Chunks
  import opened Pieces
  import opened ParallelForModel

  function Fold<T>(f: (T, T) -> T, a: T, xs: seq<T>): T {
    if xs == [] then a else f(Fold(f, a, xs[..|xs| - 1]), xs[|xs| - 1])
  }

  function Folds<T>(f: (T, T) -> T, initial: T, pieces: seq<seq<T>>): (r: seq<T>)
    ensures |r| == |pieces|
  {
    seq(|pieces|, k requires 0 <= k < |pieces| => Fold(f, initial, pieces[k]))
  }

  function Copies<T>(x: T, n: nat): seq<T> {
    seq(n, _ => x)
  }

  ghost predicate Associative<T(!new)>(f: (T, T) -> T) {
    forall a, b, c :: f(f(a, b), c) == f(a, f(b, c))
  }

  ghost predicate Commutative<T(!new)>(f: (T, T) -> T) {
    forall a, b :: f(a, b) == f(b, a)
  }

  ghost predicate RightIdentity<T(!new)>(f: (T, T) -> T, e: T) {
    forall a :: f(a, e) == a
  }

  lemma {:induction false} FoldConcat<T>(f: (T, T) -> T, a: T, xs: seq<T>, ys: seq<T>)
    ensures Fold(f, a, xs + ys) == Fold(f, Fold(f, a, xs), ys)
    decreases |ys|
  {
    if ys == [] {
      assert xs + ys == xs;
    } else {
      FoldConcat(f, a, xs, ys[..|ys| - 1]);
      assert (xs + ys)[..|xs + ys| - 1] == xs + ys[..|ys| - 1];
    }
  }

  /** An associative step can absorb what stands to the left of a fold. */
  lemma {:induction false} FoldAbsorbs<T(!new)>(f: (T, T) -> T, a: T, b: T, xs: seq<T>)
    requires Associative(f)
    ensures f(a, Fold(f, b, xs)) == Fold(f, f(a, b), xs)
    decreases |xs|
  {
    if xs == [] {
    } else {
      FoldAbsorbs(f, a, b, xs[..|xs| - 1]);
    }
  }

  /** With commutativity as well, an element can be moved from the front of a fold to its back. */
  lemma {:induction false} FoldMovesBack<T(!new)>(f: (T, T) -> T, a: T, b: T, xs: seq<T>)
    requires Associative(f) && Commutative(f)
    ensures Fold(f, f(a, b), xs) == f(Fold(f, a, xs), b)
    decreases |xs|
  {
    if xs == [] {
    } else {
      var rest, x := xs[..|xs| - 1], xs[|xs| - 1];
      FoldMovesBack(f, a, b, rest);
      var y := Fold(f, a, rest);
      assert f(f(y, b), x) == f(y, f(b, x)) == f(y, f(x, b)) == f(f(y, x), b);
    }
  }

  /** Peeling the last piece off both ways of folding. */
  lemma FoldsSnoc<T>(f: (T, T) -> T, a: T, initial: T, rest: seq<seq<T>>, last: seq<T>)
    ensures Fold(f, a, Folds(f, initial, rest + [last])) ==
            f(Fold(f, a, Folds(f, initial, rest)), Fold(f, initial, last))
    ensures Fold(f, a, Concat(rest + [last])) == Fold(f, Fold(f, a, Concat(rest)), last)
  {
    var pieces := rest + [last];
    assert Folds(f, initial, pieces)[..|rest|] == Folds(f, initial, rest);
    ConcatSnoc(rest, last);
    FoldConcat(f, a, Concat(rest), last);
  }

  /** What a partial result must satisfy to stand for its chunk. */
  ghost predicate Absorbs<T(!new)>(f: (T, T) -> T, initial: T) {
    forall a, xs :: f(a, Fold(f, initial, xs)) == Fold(f, a, xs)
  }

  lemma RightIdentityAbsorbs<T(!new)>(f: (T, T) -> T, initial: T)
    requires Associative(f) && RightIdentity(f, initial)
    ensures Absorbs(f, initial)
  {
    forall a, xs ensures f(a, Fold(f, initial, xs)) == Fold(f, a, xs) {
      FoldAbsorbs(f, a, initial, xs);
    }
  }

  /** Folding the partial results is folding everything, when `initial` may be dropped on the right. */
  lemma {:induction false} FoldOfFolds<T(!new)>(f: (T, T) -> T, a: T, initial: T, pieces: seq<seq<T>>)
    requires Absorbs(f, initial)
    ensures Fold(f, a, Folds(f, initial, pieces)) == Fold(f, a, Concat(pieces))
    decreases |pieces|
  {
    if pieces == [] {
    } else {
      var rest, last := pieces[..|pieces| - 1], pieces[|pieces| - 1];
      FoldOfFolds(f, a, initial, rest);
      assert pieces == rest + [last];
      FoldsSnoc(f, a, initial, rest, last);
    }
  }

  /** One more piece: its copy of `initial` moves behind everything else. */
  lemma MoveCopyBack<T(!new)>(f: (T, T) -> T, y: T, initial: T, n: nat, last: seq<T>)
    requires Associative(f) && Commutative(f)
    ensures f(Fold(f, y, Copies(initial, n)), Fold(f, initial, last)) ==
            Fold(f, Fold(f, y, last), Copies(initial, n + 1))
  {
    var copies := Copies(initial, n);
    var z := Fold(f, y, copies);
    FoldAbsorbs(f, z, initial, last);
    FoldMovesBack(f, z, initial, last);
    FoldSwap(f, y, copies, last);
    assert Copies(initial, n + 1)[..n] == copies;
  }

  /** In general each partial result contributes one more copy of `initial`. */
  lemma {:induction false} FoldOfFoldsWithCopies<T(!new)>(f: (T, T) -> T, a: T, initial: T, pieces: seq<seq<T>>)
    requires Associative(f) && Commutative(f)
    ensures Fold(f, a, Folds(f, initial, pieces)) ==
            Fold(f, Fold(f, a, Concat(pieces)), Copies(initial, |pieces|))
    decreases |pieces|
  {
    if pieces == [] {
    } else {
      var rest, last := pieces[..|pieces| - 1], pieces[|pieces| - 1];
      FoldOfFoldsWithCopies(f, a, initial, rest);
      assert pieces == rest + [last];
      FoldsSnoc(f, a, initial, rest, last);
      MoveCopyBack(f, Fold(f, a, Concat(rest)), initial, |rest|, last);
    }
  }

  lemma {:induction false} FoldSwap<T(!new)>(f: (T, T) -> T, a: T, xs: seq<T>, ys: seq<T>)
    requires Associative(f) && Commutative(f)
    ensures Fold(f, Fold(f, a, xs), ys) == Fold(f, Fold(f, a, ys), xs)
    decreases |xs|
  {
    if xs == [] {
    } else {
      var rest, x := xs[..|xs| - 1], xs[|xs| - 1];
      FoldMovesBack(f, Fold(f, a, rest), x, ys);
      FoldSwap(f, a, rest, ys);
    }
  }

  /** `numThreads` as `Reduce` computes it. */
  function Threads(hasPool: bool, hardware: nat, len: nat): (n: nat)
    ensures n >= 1
    ensures len > 0 ==> n <= len
  {
    if hasPool && Min(hardware, len) > 1 then Min(hardware, len) else 1
  }

  method FoldLoop<T>(f: (T, T) -> T, initial: T, xs: seq<T>) returns (r: T)
    ensures r == Fold(f, initial, xs)
  {
    r := initial;
    for k := 0 to |xs|
      invariant r == Fold(f, initial, xs[..k])
    {
      r := f(r, xs[k]);
      assert xs[..k + 1][..k] == xs[..k];
    }
    assert xs[..|xs|] == xs;
  }

  /** The tasks, finishing in any order, each leaving its chunk's fold in its own partial result. */
  method RunTasks<T>(f: (T, T) -> T, initial: T, xs: seq<T>, chunks: seq<Chunk>, n: nat) returns (partials: seq<T>)
    requires Within(chunks, |xs|) && |chunks| <= n
    ensures partials == Folds(f, initial, Slices(xs, chunks, n))
  {
    partials := Copies(initial, n);
    RangeBounds(0, |chunks|);
    var running: set<nat> := set k: nat | k in Range(0, |chunks|);
    ghost var slices := Slices(xs, chunks, n);
    while running != {}
      invariant |partials| == n && forall k | k in running :: k < |chunks|
      invariant forall k | 0 <= k < n :: partials[k] == if k in running then initial else Fold(f, initial, slices[k])
      decreases |running|
    {
      var k :| k in running;
      var local := FoldLoop(f, initial, xs[chunks[k].begin..chunks[k].end]);
      partials, running := partials[k := local], running - {k};
    }
  }

  /** The parallel path with `n` threads. */
  method ReduceInChunks<T(!new)>(xs: seq<T>, initial: T, f: (T, T) -> T, n: nat) returns (r: T)
    requires 1 < n <= |xs| && |xs| + n < WORD
    ensures Associative(f) && RightIdentity(f, initial) ==> r == Fold(f, initial, xs)
    ensures Associative(f) && Commutative(f) ==> r == Fold(f, Fold(f, initial, xs), Copies(initial, n))
  {
    var chunks := SubmitChunks(0, |xs|, WordPlus(|xs|, n - 1) / n, n);
    SimpleFit(0, |xs|, n);
    WordSplitFits(0, |xs|, n);
    SlicesCover(xs, n);
    var partials := RunTasks(f, initial, xs, chunks, n);
    r := FoldLoop(f, initial, partials);
    ghost var slices := Slices(xs, chunks, n);
    if Associative(f) && RightIdentity(f, initial) {
      RightIdentityAbsorbs(f, initial);
      FoldOfFolds(f, initial, initial, slices);
    }
    if Associative(f) && Commutative(f) {
      FoldOfFoldsWithCopies(f, initial, initial, slices);
    }
  }

  /**
   The sequential left fold if `initial` is a right identity, or if there is no pool, no second hardware thread or no
   second element; otherwise, for an associative-commutative function, that fold with exactly as many extra copies of
   `initial` as there are threads, the lesser of hardware threads and elements.
   */
  method Reduce<T(!new)>(xs: seq<T>, initial: T, f: (T, T) -> T, hasPool: bool, hardware: nat) returns (r: T)
    requires |xs| + hardware < WORD
    ensures Associative(f) && RightIdentity(f, initial) ==> r == Fold(f, initial, xs)
    ensures !hasPool || hardware <= 1 || |xs| <= 1 ==> r == Fold(f, initial, xs)
    ensures hasPool && hardware > 1 && |xs| > 1 && Associative(f) && Commutative(f) ==>
              && (hardware <= |xs| ==> r == Fold(f, Fold(f, initial, xs), Copies(initial, hardware)))
              && (hardware > |xs| ==> r == Fold(f, Fold(f, initial, xs), Copies(initial, |xs|)))
  {
    if |xs| == 0 {
      return initial;
    }
    var n := Threads(hasPool, hardware, |xs|);
    if n <= 1 {
      r := FoldLoop(f, initial, xs);
    } else {
      r := ReduceInChunks(xs, initial, f, n);
    }
  }
}
