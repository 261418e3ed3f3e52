/** `ThreadPool::ParallelFor`: the chunk tasks run on the pool's workers, interleaved in any way. */
module ParallelForModel {
  import opened Words
  import opened Chunks
  import opened Pieces

  lemma {:induction false} RangeSnoc(b: nat, e: nat)
    requires b <= e
    ensures Range(b, e + 1) == Range(b, e) + [e]
    decreases e - b
  {
    if b < e {
      RangeSnoc(b + 1, e);
    } else {
      assert Range(e + 1, e + 1) == [];
    }
  }

  /** The indices of each chunk. */
  function Ranges(chunks: seq<Chunk>): (r: seq<seq<nat>>)
    ensures |r| == |chunks| && forall k | 0 <= k < |chunks| :: r[k] == Range(chunks[k].begin, chunks[k].end)
  {
    seq(|chunks|, k requires 0 <= k < |chunks| => Range(chunks[k].begin, chunks[k].end))
  }

  lemma {:induction false} ConcatRanges(chunks: seq<Chunk>)
    ensures Concat(Ranges(chunks)) == Flatten(chunks)
    decreases |chunks|
  {
    if chunks == [] {
    } else {
      ConcatRanges(chunks[1..]);
      assert Ranges(chunks)[1..] == Ranges(chunks[1..]);
    }
  }

  lemma {:induction false} WordChunksNonEmpty(begin: nat, end: nat, size: nat, n: nat, i: nat)
    ensures forall k | 0 <= k < |WordChunksFrom(begin, end, size, n, i)| ::
              WordChunksFrom(begin, end, size, n, i)[k].begin < WordChunksFrom(begin, end, size, n, i)[k].end
    decreases n - i
  {
    if i >= n {
    } else {
      WordChunksNonEmpty(begin, end, size, n, i + 1);
    }
  }

  /** The submitting loop, with its early exit. */
  method SubmitChunks(begin: nat, end: nat, size: nat, n: nat) returns (chunks: seq<Chunk>)
    ensures chunks == WordChunksFrom(begin, end, size, n, 0)
  {
    chunks := [];
    for i := 0 to n
      invariant chunks + WordChunksFrom(begin, end, size, n, i) == WordChunksFrom(begin, end, size, n, 0)
    {
      var b := WordPlus(begin, WordTimes(i, size));
      var e := Min(end, WordPlus(b, size));
      if b >= e {
        assert WordChunksFrom(begin, end, size, n, i) == [];
        break;
      }
      ghost var rest := WordChunksFrom(begin, end, size, n, i + 1);
      assert chunks + ([Chunk(b, e)] + rest) == (chunks + [Chunk(b, e)]) + rest;
      chunks := chunks + [Chunk(b, e)];
    }
  }

  /** Each task has visited its chunk up to its cursor. */
  ghost predicate Progress(chunks: seq<Chunk>, cursors: seq<nat>, done: seq<seq<nat>>) {
    && |cursors| == |done| == |chunks|
    && forall k | 0 <= k < |chunks| ::
         chunks[k].begin <= cursors[k] <= chunks[k].end && done[k] == Range(chunks[k].begin, cursors[k])
  }

  lemma ProgressBound(chunks: seq<Chunk>, cursors: seq<nat>, done: seq<seq<nat>>)
    requires Progress(chunks, cursors, done)
    ensures |Concat(done)| <= |Concat(Ranges(chunks))|
  {
    forall k | 0 <= k < |chunks| ensures |done[k]| <= |Ranges(chunks)[k]| {
      RangeBounds(chunks[k].begin, cursors[k]);
      RangeBounds(chunks[k].begin, chunks[k].end);
    }
    ConcatShorter(done, Ranges(chunks));
  }

  lemma ProgressStep(chunks: seq<Chunk>, cursors: seq<nat>, done: seq<seq<nat>>, k: nat)
    requires Progress(chunks, cursors, done) && k < |chunks| && cursors[k] < chunks[k].end
    ensures Progress(chunks, cursors[k := cursors[k] + 1], done[k := done[k] + [cursors[k]]])
  {
    RangeSnoc(chunks[k].begin, cursors[k]);
  }

  /** The tasks' loops, each step taken by any unfinished task. */
  method RunTasks(chunks: seq<Chunk>) returns (visited: seq<nat>)
    requires forall k | 0 <= k < |chunks| :: chunks[k].begin <= chunks[k].end
    ensures multiset(visited) == multiset(Flatten(chunks))
  {
    visited := [];
    var cursors: seq<nat> := seq(|chunks|, k requires 0 <= k < |chunks| => chunks[k].begin);
    ghost var done: seq<seq<nat>> := seq(|chunks|, _ => []);
    RangeBounds(0, |chunks|);
    var running: set<nat> := set k: nat | k in Range(0, |chunks|);
    ConcatEmpties(done);
    while running != {}
      invariant Progress(chunks, cursors, done) && forall k | k in running :: k < |chunks|
      invariant forall k | 0 <= k < |chunks| && k !in running :: cursors[k] == chunks[k].end
      invariant multiset(visited) == multiset(Concat(done))
      decreases |Concat(Ranges(chunks))| - |Concat(done)|, running
    {
      var k :| k in running;
      if cursors[k] < chunks[k].end {
        ProgressStep(chunks, cursors, done, k);
        ConcatGrow(done, k, cursors[k]);
        SameItemsSnoc(visited, Concat(done), cursors[k]);
        done := done[k := done[k] + [cursors[k]]];
        visited, cursors := visited + [cursors[k]], cursors[k := cursors[k] + 1];
        ProgressBound(chunks, cursors, done);
      } else {
        running := running - {k};
      }
    }
    assert done == Ranges(chunks);
    ConcatRanges(chunks);
  }

  method RunSequentially(begin: nat, end: nat) returns (visited: seq<nat>)
    requires begin <= end
    ensures visited == Range(begin, end)
  {
    visited := [];
    assert Range(begin, begin) == [];
    for i := begin to end
      invariant visited == Range(begin, i)
    {
      RangeSnoc(begin, i);
      visited := visited + [i];
    }
  }

  lemma VisitsExactlyIffFits(visited: seq<nat>, begin: nat, end: nat, n: nat)
    requires begin < end < WORD && 0 < n <= end - begin
    requires multiset(visited) == multiset(Flatten(WordSplit(begin, end, n)))
    ensures multiset(visited) == multiset(Range(begin, end)) <==> Fits(begin, end, n)
  {
    WordSplitExactIffFits(begin, end, n);
    if !Fits(begin, end, n) {
      assert end - 1 in multiset(Range(begin, end)) && end - 1 !in multiset(Flatten(WordSplit(begin, end, n)));
    }
  }

  /**
   The indices `func` was called with, in the order the scheduler chose.  On the parallel path each index of
   the range is visited exactly once if and only if the chunk arithmetic fits in a word.
   */
  method ParallelFor(begin: nat, end: nat, maxThreads: nat) returns (visited: seq<nat>)
    requires begin < WORD && end < WORD && maxThreads < WORD
    ensures begin >= end ==> visited == []
    ensures begin < end && Min(maxThreads, end - begin) <= 1 ==> visited == Range(begin, end)
    ensures begin < end && Min(maxThreads, end - begin) > 1 ==>
              (multiset(visited) == multiset(Range(begin, end)) <==> Fits(begin, end, Min(maxThreads, end - begin)))
  {
    if begin >= end {
      return [];
    }
    var n := Min(maxThreads, end - begin);
    if n <= 1 {
      visited := RunSequentially(begin, end);
      return;
    }
    var chunks := SubmitChunks(begin, end, WordPlus(end - begin, n - 1) / n, n);
    WordChunksNonEmpty(begin, end, WordChunkSize(end - begin, n), n, 0);
    visited := RunTasks(chunks);
    VisitsExactlyIffFits(visited, begin, end, n);
  }

  /** `parallel::ForEach`: the elements `func` is called with, each position exactly once; in order without a pool. */
  method ForEach<T>(xs: seq<T>, hasPool: bool, maxThreads: nat) returns (seen: seq<T>)
    requires |xs| + maxThreads < WORD
    ensures multiset(seen) == multiset(xs)
    ensures !hasPool ==> seen == xs
  {
    if |xs| == 0 {
      assert xs == [];
      return [];
    }
    if !hasPool {
      seen := [];
      for i := 0 to |xs|
        invariant seen == xs[..i]
      {
        seen := seen + [xs[i]];
      }
      assert xs[..|xs|] == xs;
      return;
    }
    var visited := ParallelFor(0, |xs|, maxThreads);
    var n := Min(maxThreads, |xs|);
    if n > 1 {
      SimpleFit(0, |xs|, n);
    }
    GatherRange(xs, 0, |xs|);
    assert xs[0..|xs|] == xs;
    SameItemsBelow(visited, Range(0, |xs|), |xs|);
    GatherSameItems(xs, visited, Range(0, |xs|));
    seen := Gather(xs, visited);
  }
}
