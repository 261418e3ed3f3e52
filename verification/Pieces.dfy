/** The slices of a sequence that the chunk tasks of `Reduce` and `Sort` work on. */
module Pieces {
  import opened Words
  import opened Chunks

  function Concat<T>(pieces: seq<seq<T>>): seq<T> {
    if pieces == [] then [] else pieces[0] + Concat(pieces[1..])
  }

  lemma {:induction false} ConcatSnoc<T>(pieces: seq<seq<T>>, last: seq<T>)
    ensures Concat(pieces + [last]) == Concat(pieces) + last
    decreases |pieces|
  {
    if pieces == [] {
      assert pieces + [last] == [last];
      assert Concat([last]) == last + Concat([]);
    } else {
      ConcatSnoc(pieces[1..], last);
      assert (pieces + [last])[1..] == pieces[1..] + [last];
    }
  }

  lemma SameItemsSnoc<T>(a: seq<T>, b: seq<T>, x: T)
    requires multiset(a) == multiset(b)
    ensures multiset(a + [x]) == multiset(b + [x])
  {
  }

  /** Growing one piece by one element adds that element to the whole. */
  lemma {:induction false} ConcatGrow<T>(pieces: seq<seq<T>>, k: nat, x: T)
    requires k < |pieces|
    ensures multiset(Concat(pieces[k := pieces[k] + [x]])) == multiset(Concat(pieces) + [x])
    ensures |Concat(pieces[k := pieces[k] + [x]])| == |Concat(pieces)| + 1
    decreases k
  {
    var pieces' := pieces[k := pieces[k] + [x]];
    if k == 0 {
      assert pieces'[1..] == pieces[1..];
      assert multiset(pieces[0] + [x] + Concat(pieces[1..])) == multiset(pieces[0] + Concat(pieces[1..]) + [x]);
    } else {
      ConcatGrow(pieces[1..], k - 1, x);
      assert pieces'[1..] == pieces[1..][k - 1 := pieces[k] + [x]];
      assert multiset(pieces[0] + Concat(pieces[1..]) + [x]) ==
             multiset(pieces[0]) + multiset(Concat(pieces[1..]) + [x]);
    }
  }

  /** Pieces no longer than those of another list join to something no longer. */
  lemma {:induction false} ConcatShorter<T>(short: seq<seq<T>>, long: seq<seq<T>>)
    requires |short| == |long| && forall k | 0 <= k < |short| :: |short[k]| <= |long[k]|
    ensures |Concat(short)| <= |Concat(long)|
    decreases |short|
  {
    if short == [] {
    } else {
      ConcatShorter(short[1..], long[1..]);
    }
  }

  ghost predicate Within(chunks: seq<Chunk>, len: nat) {
    forall k | 0 <= k < |chunks| :: chunks[k].begin <= chunks[k].end <= len
  }

  /** One slice per thread; threads beyond the last chunk have an empty one. */
  function Slices<T>(xs: seq<T>, chunks: seq<Chunk>, n: nat): (r: seq<seq<T>>)
    requires Within(chunks, |xs|) && |chunks| <= n
    ensures |r| == n
    ensures forall k | 0 <= k < n ::
              r[k] == if k < |chunks| then xs[chunks[k].begin..chunks[k].end] else []
  {
    seq(n, k requires 0 <= k < n => if k < |chunks| then xs[chunks[k].begin..chunks[k].end] else [])
  }

  ghost predicate AllBelow(indices: seq<nat>, len: nat) {
    forall k | 0 <= k < |indices| :: indices[k] < len
  }

  function Gather<T>(xs: seq<T>, indices: seq<nat>): (r: seq<T>)
    requires AllBelow(indices, |xs|)
    ensures |r| == |indices| && forall k | 0 <= k < |r| :: r[k] == xs[indices[k]]
  {
    seq(|indices|, k requires 0 <= k < |indices| => xs[indices[k]])
  }

  lemma {:induction false} RangeAt(b: nat, e: nat)
    requires b <= e
    ensures |Range(b, e)| == e - b && forall k | 0 <= k < e - b :: Range(b, e)[k] == b + k
    decreases e - b
  {
    if b >= e {
    } else {
      RangeAt(b + 1, e);
    }
  }

  lemma GatherRange<T>(xs: seq<T>, b: nat, e: nat)
    requires b <= e <= |xs|
    ensures AllBelow(Range(b, e), |xs|) && Gather(xs, Range(b, e)) == xs[b..e]
  {
    RangeAt(b, e);
  }

  lemma GatherConcat<T>(xs: seq<T>, a: seq<nat>, b: seq<nat>)
    requires AllBelow(a, |xs|) && AllBelow(b, |xs|)
    ensures AllBelow(a + b, |xs|) && Gather(xs, a + b) == Gather(xs, a) + Gather(xs, b)
  {
  }

  function Without<T>(a: seq<T>, k: nat): (r: seq<T>)
    requires k < |a|
    ensures |r| == |a| - 1
  {
    a[..k] + a[k + 1..]
  }

  lemma WithoutItems<T>(a: seq<T>, k: nat)
    requires k < |a|
    ensures multiset(a) == multiset(Without(a, k)) + multiset{a[k]}
    ensures multiset(Without(a, k)) == multiset(a) - multiset{a[k]}
  {
    assert a == a[..k] + [a[k]] + a[k + 1..];
  }

  lemma GatherWithout<T>(xs: seq<T>, a: seq<nat>, k: nat)
    requires AllBelow(a, |xs|) && k < |a|
    ensures AllBelow(Without(a, k), |xs|) && Gather(xs, Without(a, k)) == Without(Gather(xs, a), k)
  {
  }

  lemma SameItemsBelow(a: seq<nat>, b: seq<nat>, len: nat)
    requires AllBelow(b, len) && multiset(a) == multiset(b)
    ensures AllBelow(a, len)
  {
    forall k | 0 <= k < |a| ensures a[k] < len {
      assert a[k] in multiset(b);
    }
  }

  /** Visiting the same indices in another order sees the same elements. */
  lemma {:induction false} GatherSameItems<T>(xs: seq<T>, a: seq<nat>, b: seq<nat>)
    requires AllBelow(a, |xs|) && AllBelow(b, |xs|) && multiset(a) == multiset(b)
    ensures multiset(Gather(xs, a)) == multiset(Gather(xs, b))
    decreases |a|
  {
    assert |multiset(a)| == |a| && |multiset(b)| == |b|;
    if a == [] {
    } else {
      assert a[0] in multiset(b);
      var k :| 0 <= k < |b| && b[k] == a[0];
      WithoutItems(a, 0);
      WithoutItems(b, k);
      GatherWithout(xs, a, 0);
      GatherWithout(xs, b, k);
      GatherSameItems(xs, Without(a, 0), Without(b, k));
      WithoutItems(Gather(xs, a), 0);
      WithoutItems(Gather(xs, b), k);
    }
  }

  lemma {:induction false} ConcatEmpties<T>(pieces: seq<seq<T>>)
    requires forall k | 0 <= k < |pieces| :: pieces[k] == []
    ensures Concat(pieces) == []
    decreases |pieces|
  {
    if pieces == [] {
    } else {
      ConcatEmpties(pieces[1..]);
    }
  }

  lemma {:induction false} ConcatSlices<T>(xs: seq<T>, chunks: seq<Chunk>, n: nat)
    requires Within(chunks, |xs|) && |chunks| <= n
    ensures AllBelow(Flatten(chunks), |xs|)
    ensures Concat(Slices(xs, chunks, n)) == Gather(xs, Flatten(chunks))
    decreases |chunks|
  {
    var slices := Slices(xs, chunks, n);
    if chunks == [] {
      ConcatEmpties(slices);
    } else {
      ConcatSlices(xs, chunks[1..], n - 1);
      GatherRange(xs, chunks[0].begin, chunks[0].end);
      GatherConcat(xs, Range(chunks[0].begin, chunks[0].end), Flatten(chunks[1..]));
      assert slices[1..] == Slices(xs, chunks[1..], n - 1);
    }
  }

  /** The slices, one after the other, are the whole sequence. */
  lemma SlicesCover<T>(xs: seq<T>, n: nat)
    requires xs != [] && n > 0
    ensures Within(Split(0, |xs|, n), |xs|) && |Split(0, |xs|, n)| <= n
    ensures Concat(Slices(xs, Split(0, |xs|, n), n)) == xs
  {
    ChunksFromShape(0, |xs|, ChunkSize(|xs|, n), n, 0);
    var chunks := Split(0, |xs|, n);
    SplitExact(0, |xs|, n);
    ConcatSlices(xs, chunks, n);
    GatherRange(xs, 0, |xs|);
  }
}
