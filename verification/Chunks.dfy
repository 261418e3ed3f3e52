/** Splitting a range into ceiling-sized chunks, as `ParallelFor`, `Reduce` and `Sort` all do. */
module Chunks {
  import opened Words

  datatype Chunk = Chunk(begin: nat, end: nat)

  /** The indices from `b` up to but excluding `e`, in order. */
  function Range(b: nat, e: nat): (r: seq<nat>)
    decreases e - b
  {
    if b >= e then [] else [b] + Range(b + 1, e)
  }

  function Min(a: nat, b: nat): nat {
    if a < b then a else b
  }

  function ChunkSize(count: nat, n: nat): nat
    requires n > 0
  {
    (count + n - 1) / n
  }

  /** The chunks the loop submits from index `i` on; it stops early at the first empty one. */
  function ChunksFrom(begin: nat, end: nat, size: nat, n: nat, i: nat): seq<Chunk>
    decreases n - i
  {
    if i >= n then []
    else
      var b := begin + i * size;
      var e := Min(end, b + size);
      if b >= e then [] else [Chunk(b, e)] + ChunksFrom(begin, end, size, n, i + 1)
  }

  function Split(begin: nat, end: nat, n: nat): seq<Chunk>
    requires begin <= end && n > 0
  {
    ChunksFrom(begin, end, ChunkSize(end - begin, n), n, 0)
  }

  /** The indices of all chunks, chunk after chunk. */
  function Flatten(chunks: seq<Chunk>): seq<nat> {
    if chunks == [] then [] else Range(chunks[0].begin, chunks[0].end) + Flatten(chunks[1..])
  }

  // ---------- the chunks are an exact partition ----------

  lemma {:induction false} RangeConcat(a: nat, b: nat, c: nat)
    requires a <= b <= c
    ensures Range(a, c) == Range(a, b) + Range(b, c)
    decreases b - a
  {
    if a >= b {
    } else {
      RangeConcat(a + 1, b, c);
    }
  }

  lemma ChunkSizeCovers(count: nat, n: nat)
    requires n > 0
    ensures count <= n * ChunkSize(count, n) <= count + n - 1
    ensures count > 0 ==> ChunkSize(count, n) > 0
  {
    var size := ChunkSize(count, n);
    assert count + n - 1 == n * size + (count + n - 1) % n;
    if size == 0 {
      assert n * size == 0;
    }
  }

  lemma {:induction false} ChunksFromExact(begin: nat, end: nat, size: nat, n: nat, i: nat)
    requires size > 0 && i <= n && begin + n * size >= end
    ensures Flatten(ChunksFrom(begin, end, size, n, i)) == Range(begin + i * size, end)
    decreases n - i
  {
    var b := begin + i * size;
    if i == n {
    } else if b < end {
      var e := Min(end, b + size);
      assert (i + 1) * size == i * size + size;
      ChunksFromExact(begin, end, size, n, i + 1);
      RangeConcat(b, e, end);
      assert Range(b + size, end) == Range(e, end);
      var rest := ChunksFrom(begin, end, size, n, i + 1);
      assert ([Chunk(b, e)] + rest)[1..] == rest;
    }
  }

  /** Chunk after chunk, every index of the range occurs once and in order. */
  lemma SplitExact(begin: nat, end: nat, n: nat)
    requires begin < end && n > 0
    ensures Flatten(Split(begin, end, n)) == Range(begin, end)
  {
    ChunkSizeCovers(end - begin, n);
    ChunksFromExact(begin, end, ChunkSize(end - begin, n), n, 0);
  }

  lemma {:induction false} ChunksFromShape(begin: nat, end: nat, size: nat, n: nat, i: nat)
    requires i <= n
    ensures var cs := ChunksFrom(begin, end, size, n, i);
            && |cs| <= n - i
            && forall k | 0 <= k < |cs| :: begin <= cs[k].begin < cs[k].end <= end
    decreases n - i
  {
    if i >= n {
    } else {
      ChunksFromShape(begin, end, size, n, i + 1);
      var b := begin + i * size;
      assert i * size >= 0;
    }
  }

  /** The size is the ceiling of the quotient: enough for every thread to have one chunk, and no larger. */
  lemma ChunkSizeIsCeiling(count: nat, n: nat)
    requires n > 0 && count > 0
    ensures var size := ChunkSize(count, n); n * (size - 1) < count <= n * size
  {
    ChunkSizeCovers(count, n);
    var size := ChunkSize(count, n);
    assert n * (size - 1) == n * size - n;
  }

  lemma NoChunkBeyondEnd(begin: nat, end: nat, size: nat, n: nat, i: nat)
    requires begin + i * size + size >= end
    ensures ChunksFrom(begin, end, size, n, i + 1) == []
  {
    assert (i + 1) * size == i * size + size;
  }

  /** All chunks but the last have exactly that size, and the last no more. */
  ghost predicate Even(cs: seq<Chunk>, size: nat) {
    forall k | 0 <= k < |cs| :: cs[k].end - cs[k].begin <= size && (k < |cs| - 1 ==> cs[k].end - cs[k].begin == size)
  }

  lemma EvenCons(c: Chunk, rest: seq<Chunk>, size: nat)
    requires Even(rest, size) && c.end - c.begin <= size && (rest != [] ==> c.end - c.begin == size)
    ensures Even([c] + rest, size)
  {
    var cs := [c] + rest;
    forall k | 0 <= k < |cs|
      ensures cs[k].end - cs[k].begin <= size && (k < |cs| - 1 ==> cs[k].end - cs[k].begin == size)
    {
      assert k > 0 ==> cs[k] == rest[k - 1];
    }
  }

  lemma {:induction false} ChunksAreEven(begin: nat, end: nat, size: nat, n: nat, i: nat)
    ensures Even(ChunksFrom(begin, end, size, n, i), size)
    decreases n - i
  {
    if i >= n {
    } else {
      var b, rest := begin + i * size, ChunksFrom(begin, end, size, n, i + 1);
      ChunksAreEven(begin, end, size, n, i + 1);
      if b < Min(end, b + size) {
        if b + size >= end {
          NoChunkBeyondEnd(begin, end, size, n, i);
        }
        EvenCons(Chunk(b, Min(end, b + size)), rest, size);
      }
    }
  }

  // ---------- the same loop in 64-bit words ----------

  function WordPlus(a: nat, b: nat): nat {
    (a + b) % WORD
  }

  function WordTimes(a: nat, b: nat): nat {
    (a * b) % WORD
  }

  function WordChunkSize(count: nat, n: nat): nat
    requires n > 0
  {
    WordPlus(count, n - 1) / n
  }

  function WordChunksFrom(begin: nat, end: nat, size: nat, n: nat, i: nat): seq<Chunk>
    decreases n - i
  {
    if i >= n then []
    else
      var b := WordPlus(begin, WordTimes(i, size));
      var e := Min(end, WordPlus(b, size));
      if b >= e then [] else [Chunk(b, e)] + WordChunksFrom(begin, end, size, n, i + 1)
  }

  function WordSplit(begin: nat, end: nat, n: nat): seq<Chunk>
    requires begin <= end && n > 0
  {
    WordChunksFrom(begin, end, WordChunkSize(end - begin, n), n, 0)
  }

  /** The first of `b`, `b + size`, `b + 2 * size`, ... that is not below `end`. */
  function RoundedEnd(b: nat, end: nat, size: nat): (r: nat)
    requires size > 0
    ensures r >= end && (b < end ==> r < end + size)
    decreases end - b
  {
    if b >= end then b else RoundedEnd(b + size, end, size)
  }

  /** What a caller can check beforehand: neither the rounded-up count nor the rounded-up end leaves the word. */
  predicate Fits(begin: nat, end: nat, n: nat)
    requires begin < end && n > 0
  {
    && end - begin + n - 1 < WORD
    && (var size := ChunkSize(end - begin, n); size > 0 && RoundedEnd(begin, end, size) < WORD)
  }

  lemma WordPlusCases(a: nat, b: nat)
    requires a < WORD && b < WORD
    ensures WordPlus(a, b) == if a + b < WORD then a + b else a + b - WORD
  {
  }

  lemma TimesSucc(i: nat, size: nat)
    ensures (i + 1) * size == i * size + size && i * size >= 0
  {
  }

  /** Where a chunk begins, if that still fits. */
  lemma WordBegin(begin: nat, size: nat, i: nat)
    requires begin + i * size < WORD
    ensures WordPlus(begin, WordTimes(i, size)) == begin + i * size
  {
    TimesSucc(i, size);
    var m := i * size;
    assert m % WORD == m;
    WordPlusCases(begin, m);
  }

  lemma {:induction false} WordChunksFromExact(begin: nat, end: nat, size: nat, n: nat, i: nat)
    requires 0 < size < WORD && end < WORD && i <= n
    requires begin + i * size < WORD && RoundedEnd(begin + i * size, end, size) < WORD
    ensures WordChunksFrom(begin, end, size, n, i) == ChunksFrom(begin, end, size, n, i)
    decreases n - i
  {
    if i >= n {
    } else {
      WordBegin(begin, size, i);
      TimesSucc(i, size);
      var b := begin + i * size;
      if b < end {
        assert RoundedEnd(b, end, size) == RoundedEnd(b + size, end, size);
        WordPlusCases(b, size);
        WordChunksFromExact(begin, end, size, n, i + 1);
      }
    }
  }

  /** When the rounded-up end leaves the word, the loop breaks off before the last chunk. */
  lemma {:induction false} WordChunksFromShort(begin: nat, end: nat, size: nat, n: nat, i: nat)
    requires 0 < size < WORD && end < WORD && i <= n && begin + i * size < end
    requires RoundedEnd(begin + i * size, end, size) >= WORD
    ensures end - 1 !in Flatten(WordChunksFrom(begin, end, size, n, i))
    decreases n - i
  {
    if i < n {
      WordBegin(begin, size, i);
      TimesSucc(i, size);
      var b := begin + i * size;
      WordPlusCases(b, size);
      if b + size < end {
        WordChunksFromShort(begin, end, size, n, i + 1);
        RangeBounds(b, b + size);
        FlattenCons(Chunk(b, b + size), WordChunksFrom(begin, end, size, n, i + 1));
      } else {
        assert RoundedEnd(b, end, size) == b + size;
      }
    }
  }

  lemma FlattenCons(c: Chunk, rest: seq<Chunk>)
    ensures Flatten([c] + rest) == Range(c.begin, c.end) + Flatten(rest)
  {
    assert ([c] + rest)[1..] == rest;
  }

  lemma {:induction false} RangeBounds(b: nat, e: nat)
    ensures |Range(b, e)| == (if b <= e then e - b else 0)
    ensures forall i | i in Range(b, e) :: b <= i < e
    ensures forall i | b <= i < e :: i in Range(b, e)
    decreases e - b
  {
    if b >= e {
    } else {
      RangeBounds(b + 1, e);
    }
  }

  lemma WordSizeFacts(count: nat, n: nat)
    requires 0 < n <= count && count + n - 1 < WORD
    ensures 0 < WordChunkSize(count, n) == ChunkSize(count, n) < WORD
    ensures n * ChunkSize(count, n) >= count
  {
    ChunkSizeCovers(count, n);
    QuotientBound(count + n - 1, n);
  }

  lemma WordSplitFits(begin: nat, end: nat, n: nat)
    requires begin < end < WORD && 0 < n <= end - begin && Fits(begin, end, n)
    ensures WordSplit(begin, end, n) == Split(begin, end, n)
  {
    WordSizeFacts(end - begin, n);
    WordFromStart(begin, end, ChunkSize(end - begin, n), n);
  }

  lemma WordFromStart(begin: nat, end: nat, size: nat, n: nat)
    requires begin < end < WORD && 0 < size < WORD && begin + n * size >= end
    ensures RoundedEnd(begin, end, size) < WORD ==>
              WordChunksFrom(begin, end, size, n, 0) == ChunksFrom(begin, end, size, n, 0)
    ensures RoundedEnd(begin, end, size) >= WORD ==>
              end - 1 !in Flatten(WordChunksFrom(begin, end, size, n, 0))
  {
    assert begin + 0 * size == begin;
    if RoundedEnd(begin, end, size) < WORD {
      WordChunksFromExact(begin, end, size, n, 0);
    } else {
      WordChunksFromShort(begin, end, size, n, 0);
    }
  }

  lemma WordSplitMisses(begin: nat, end: nat, n: nat)
    requires begin < end < WORD && 0 < n <= end - begin && !Fits(begin, end, n)
    ensures end - 1 !in Flatten(WordSplit(begin, end, n))
  {
    var count := end - begin;
    if count + n - 1 >= WORD {
      WordPlusCases(count, n - 1);
      SmallQuotient(count + n - 1 - WORD, n);
      EmptyChunks(begin, end, n);
    } else {
      WordSizeFacts(count, n);
      WordFromStart(begin, end, ChunkSize(count, n), n);
    }
  }

  lemma EmptyChunks(begin: nat, end: nat, n: nat)
    requires begin < WORD
    ensures WordChunksFrom(begin, end, 0, n, 0) == []
  {
    WordPlusCases(begin, 0);
  }

  /**
   The word-sized loop covers the range exactly once if and only if `Fits` holds; otherwise it misses the last
   index.
   */
  lemma WordSplitExactIffFits(begin: nat, end: nat, n: nat)
    requires begin < end < WORD && 0 < n <= end - begin
    ensures Flatten(WordSplit(begin, end, n)) == Range(begin, end) <==> Fits(begin, end, n)
    ensures !Fits(begin, end, n) ==> end - 1 !in Flatten(WordSplit(begin, end, n)) && end - 1 in Range(begin, end)
  {
    RangeBounds(begin, end);
    if Fits(begin, end, n) {
      WordSplitFits(begin, end, n);
      SplitExact(begin, end, n);
    } else {
      WordSplitMisses(begin, end, n);
    }
  }

  /** Nine indices at the top of the word, two threads: the second chunk would end beyond the word, and is dropped. */
  lemma WordSplitCanMiss()
    ensures var b, e := WORD - 10, WORD - 1;
            !Fits(b, e, 2) && e - 1 !in Flatten(WordSplit(b, e, 2)) && e - 1 in Range(b, e)
  {
    var b, e := WORD - 10, WORD - 1;
    assert ChunkSize(e - b, 2) == 5;
    assert RoundedEnd(b, e, 5) == RoundedEnd(b + 5, e, 5) == RoundedEnd(b + 10, e, 5) == WORD;
    WordSplitExactIffFits(b, e, 2);
  }

  lemma SmallQuotient(a: nat, n: nat)
    requires a < n
    ensures a / n == 0
  {
  }

  lemma QuotientBound(a: nat, n: nat)
    requires n > 0
    ensures a / n <= a
  {
    var q, k := a / n, n - 1;
    assert a == n * q + a % n;
    assert n * q == q + k * q && k * q >= 0;
  }

  lemma {:induction false} RoundedEndBound(b: nat, end: nat, size: nat, k: nat)
    requires size > 0 && b + k * size >= end
    ensures RoundedEnd(b, end, size) <= b + k * size
    decreases k
  {
    if b < end {
      assert k > 0;
      assert k * size == (k - 1) * size + size;
      RoundedEndBound(b + size, end, size, k - 1);
    } else {
      assert k * size >= 0;
    }
  }

  /** A simple sufficient check: `end + n - 1` fits in a word. */
  lemma SimpleFit(begin: nat, end: nat, n: nat)
    requires begin < end && 0 < n && end + n - 1 < WORD
    ensures Fits(begin, end, n)
  {
    var size := ChunkSize(end - begin, n);
    ChunkSizeCovers(end - begin, n);
    RoundedEndBound(begin, end, size, n);
  }
}
