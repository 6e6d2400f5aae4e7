/** The bottom-up merge of sorted runs of different lengths inside one array (tdigest.rs, external_merge and
    the block loop of merge_digests). */
module RunMerging {
  import opened Centroids
  import opened IntFacts

  /** What is still to be merged of the runs [i, middle) and [j, last). */
  ghost function Remaining(s: seq<Centroid>, i: nat, middle: nat, j: nat, last: nat): seq<Centroid>
    requires i <= middle <= j <= last <= |s|
  {
    MergeRuns(s[i..middle], s[j..last])
  }

  /** One step of a merge moves the smaller head, the left one on a tie, to the collected part. */
  lemma MergeStep(taken: seq<Centroid>, s: seq<Centroid>, i: nat, middle: nat, j: nat, last: nat)
    requires i < middle <= j < last <= |s|
    ensures s[j].mean < s[i].mean ==> taken + Remaining(s, i, middle, j, last) == (taken + [s[j]]) + Remaining(s, i, middle, j + 1, last)
    ensures s[j].mean >= s[i].mean ==> taken + Remaining(s, i, middle, j, last) == (taken + [s[i]]) + Remaining(s, i + 1, middle, j, last)
  {
    assert s[i..middle][1..] == s[i + 1..middle] && s[j..last][1..] == s[j + 1..last];
    if s[j].mean < s[i].mean {
      assert taken + ([s[j]] + Remaining(s, i, middle, j + 1, last)) == (taken + [s[j]]) + Remaining(s, i, middle, j + 1, last);
    } else {
      assert taken + ([s[i]] + Remaining(s, i + 1, middle, j, last)) == (taken + [s[i]]) + Remaining(s, i + 1, middle, j, last);
    }
  }

  lemma MergeEnds(taken: seq<Centroid>, s: seq<Centroid>, i: nat, middle: nat, j: nat, last: nat)
    requires i <= middle <= j <= last <= |s| && (i == middle || j == last)
    ensures taken + Remaining(s, i, middle, j, last) == taken + s[i..middle] + s[j..last]
  {
  }

  /** The first loop of external_merge: collect inputs until one of the two adjacent runs is used up. */
  method MergeHeads(centroids: array<Centroid>, first: nat, middle: nat, last: nat)
    returns (result: seq<Centroid>, i: nat, j: nat)
    requires first <= middle <= last <= centroids.Length
    ensures first <= i <= middle <= j <= last && (i == middle || j == last)
    ensures result + Remaining(centroids[..], i, middle, j, last) == MergeRuns(centroids[first..middle], centroids[middle..last])
  {
    ghost var s := centroids[..];
    assert s[first..middle] == centroids[first..middle] && s[middle..last] == centroids[middle..last];
    ghost var merged := Remaining(s, first, middle, middle, last);
    hide MergeRuns, Remaining;
    result := [];
    i, j := first, middle;
    while i < middle && j < last
      invariant first <= i <= middle <= j <= last
      invariant result + Remaining(s, i, middle, j, last) == merged
    {
      MergeStep(result, s, i, middle, j, last);
      if centroids[i].mean < centroids[j].mean {
        result := result + [centroids[i]];
        i := i + 1;
      } else if centroids[i].mean > centroids[j].mean {
        result := result + [centroids[j]];
        j := j + 1;
      } else {
        result := result + [centroids[i]];
        i := i + 1;
      }
    }
  }

  /** Append what is left of one run. */
  method Drain(centroids: array<Centroid>, from: nat, to: nat, taken: seq<Centroid>) returns (result: seq<Centroid>)
    requires from <= to <= centroids.Length
    ensures result == taken + centroids[from..to]
  {
    result := taken;
    var i := from;
    while i < to
      invariant from <= i <= to
      invariant result == taken + centroids[from..i]
    {
      result := result + [centroids[i]];
      i := i + 1;
    }
  }

  /** Overwrite the slice from first on. */
  method WriteBack(centroids: array<Centroid>, first: nat, result: seq<Centroid>)
    requires first + |result| <= centroids.Length
    modifies centroids
    ensures centroids[..] == old(centroids[..first]) + result + old(centroids[first + |result|..])
  {
    var i := first;
    for k := 0 to |result|
      invariant i == first + k
      invariant forall m :: 0 <= m < k ==> centroids[first + m] == result[m]
      invariant forall m :: 0 <= m < first || first + |result| <= m < centroids.Length ==>
                  centroids[m] == old(centroids[m])
    {
      centroids[i] := result[k];
      i := i + 1;
    }
  }

  /** Merge the adjacent sorted runs [first, middle) and [middle, last) in place; nothing else is touched. */
  method ExternalMerge(centroids: array<Centroid>, first: nat, middle: nat, last: nat)
    requires first <= middle <= last <= centroids.Length
    modifies centroids
    ensures centroids[first..last] == MergeRuns(old(centroids[first..middle]), old(centroids[middle..last]))
    ensures forall k :: 0 <= k < first || last <= k < centroids.Length ==> centroids[k] == old(centroids[k])
  {
    hide MergeRuns, Remaining;
    ghost var before := centroids[..];
    LengthOfMerge(centroids[first..middle], centroids[middle..last]);
    var result, i, j := MergeHeads(centroids, first, middle, last);
    MergeEnds(result, before, i, middle, j, last);
    assert before[i..middle] == centroids[i..middle] && before[j..last] == centroids[j..last];
    result := Drain(centroids, i, middle, result);
    result := Drain(centroids, j, last, result);
    WriteBack(centroids, first, result);
    ghost var after := centroids[..];
    assert after == before[..first] + result + before[last..];
    assert after[first..last] == result && centroids[first..last] == after[first..last];
    forall k | 0 <= k < first || last <= k < centroids.Length ensures centroids[k] == before[k] {
      assert centroids[k] == after[k];
    }
  }

  /** Where run i begins; past the last run, the end of the array. */
  function StartAt(starts: seq<nat>, n: nat, i: nat): nat {
    if i < |starts| then starts[i] else n
  }

  ghost predicate RunStarts(starts: seq<nat>, n: nat) {
    && starts != [] && starts[0] == 0
    && (forall i, j :: 0 <= i <= j < |starts| ==> starts[i] <= starts[j])
    && (forall i :: 0 <= i < |starts| ==> starts[i] <= n)
  }

  lemma StartsOrdered(starts: seq<nat>, n: nat, i: nat, j: nat)
    requires RunStarts(starts, n) && i <= j
    ensures StartAt(starts, n, i) <= StartAt(starts, n, j) <= n
  {
  }

  /** The part [lo, hi) of the array holds the stable sort of the same part of the input. */
  ghost predicate PartSorted(s: seq<Centroid>, input: seq<Centroid>, lo: nat, hi: nat) {
    lo <= hi <= |s| == |input| && s[lo..hi] == SortByMean(input[lo..hi])
  }

  /** Where block q begins when the runs are grouped by `size`. */
  function BlockStart(starts: seq<nat>, n: nat, q: nat, size: nat): nat {
    StartAt(starts, n, q * size)
  }

  /** Block q is arranged; blocks past the last run are empty. */
  ghost predicate BlockSorted(s: seq<Centroid>, input: seq<Centroid>, starts: seq<nat>, q: nat, size: nat) {
    PartSorted(s, input, BlockStart(starts, |input|, q, size), BlockStart(starts, |input|, q + 1, size))
  }

  /** Only [first, last) changed. */
  ghost predicate SameOutside(s: seq<Centroid>, s': seq<Centroid>, first: nat, last: nat) {
    |s| == |s'| && forall k :: 0 <= k < |s| && (k < first || last <= k) ==> s'[k] == s[k]
  }

  lemma MergeSorts(s: seq<Centroid>, s': seq<Centroid>, input: seq<Centroid>, first: nat, middle: nat, last: nat)
    requires PartSorted(s, input, first, middle) && PartSorted(s, input, middle, last) && |s'| == |s|
    requires s'[first..last] == MergeRuns(s[first..middle], s[middle..last])
    ensures PartSorted(s', input, first, last)
  {
    MergeOfSorts(input[first..middle], input[middle..last]);
    assert input[first..middle] + input[middle..last] == input[first..last];
  }

  lemma SortedOutside(s: seq<Centroid>, s': seq<Centroid>, input: seq<Centroid>, first: nat, last: nat, lo: nat, hi: nat)
    requires PartSorted(s, input, lo, hi) && SameOutside(s, s', first, last)
    requires hi <= first || last <= lo
    ensures PartSorted(s', input, lo, hi)
  {
    assert s'[lo..hi] == s[lo..hi];
  }

  /** Two adjacent blocks make one block of twice the size. */
  lemma Doubled(q: nat, size: nat)
    ensures (2 * q) * size == q * (2 * size)
    ensures (2 * q + 1) * size == q * (2 * size) + size
    ensures (2 * q + 2) * size == (q + 1) * (2 * size) == q * (2 * size) + 2 * size
  {
  }

  lemma BlocksOrdered(starts: seq<nat>, n: nat, p: nat, q: nat, size: nat)
    requires RunStarts(starts, n) && p <= q
    ensures p * size <= q * size
    ensures BlockStart(starts, n, p, size) <= BlockStart(starts, n, q, size) <= n
  {
    ProductsOrdered(p, q, size);
    StartsOrdered(starts, n, p * size, q * size);
  }

  /** Replacing the blocks 2q and 2q+1 by their merge arranges block q of the doubled size and leaves all other
      blocks as they were. */
  lemma PairMerged(s: seq<Centroid>, s': seq<Centroid>, input: seq<Centroid>, starts: seq<nat>, q: nat, size: nat)
    requires RunStarts(starts, |input|)
    requires forall m: nat :: m < q ==> BlockSorted(s, input, starts, m, 2 * size)
    requires forall m: nat :: 2 * q <= m ==> BlockSorted(s, input, starts, m, size)
    requires BlockSorted(s', input, starts, q, 2 * size)
    requires SameOutside(s, s', BlockStart(starts, |input|, q, 2 * size), BlockStart(starts, |input|, q + 1, 2 * size))
    ensures forall m: nat :: m < q + 1 ==> BlockSorted(s', input, starts, m, 2 * size)
    ensures forall m: nat :: 2 * (q + 1) <= m ==> BlockSorted(s', input, starts, m, size)
  {
    var n := |input|;
    var first, last := BlockStart(starts, n, q, 2 * size), BlockStart(starts, n, q + 1, 2 * size);
    assert last == BlockStart(starts, n, 2 * q + 2, size) by { Doubled(q, size); }
    hide SortByMean, SameOutside, BlockStart, RunStarts;
    forall m: nat | m < q ensures BlockSorted(s', input, starts, m, 2 * size) {
      assert BlockSorted(s, input, starts, m, 2 * size);
      BlocksOrdered(starts, n, m + 1, q, 2 * size);
      SortedOutside(s, s', input, first, last, BlockStart(starts, n, m, 2 * size), BlockStart(starts, n, m + 1, 2 * size));
    }
    forall m: nat | 2 * q + 2 <= m ensures BlockSorted(s', input, starts, m, size) {
      BlocksOrdered(starts, n, 2 * q + 2, m, size);
      assert BlockSorted(s, input, starts, m, size);
      SortedOutside(s, s', input, first, last, BlockStart(starts, n, m, size), BlockStart(starts, n, m + 1, size));
    }
  }

  /** Blocks past the last run are empty, hence arranged. */
  lemma EmptyBlock(s: seq<Centroid>, input: seq<Centroid>, starts: seq<nat>, q: nat, size: nat)
    requires RunStarts(starts, |input|) && |s| == |input| && |starts| <= q * size
    ensures BlockSorted(s, input, starts, q, size)
  {
    BlocksOrdered(starts, |input|, q, q + 1, size);
    assert s[|s|..|s|] == [] && input[|s|..|s|] == [];
  }

  lemma SingleRuns(s: seq<Centroid>, starts: seq<nat>)
    requires RunStarts(starts, |s|)
    requires forall i: nat :: i < |starts| ==> RunSorted(s, starts, i)
    ensures forall m: nat :: BlockSorted(s, s, starts, m, 1)
  {
    forall m: nat ensures BlockSorted(s, s, starts, m, 1) {
      if m < |starts| {
        StartsOrdered(starts, |s|, m, m + 1);
        assert RunSorted(s, starts, m);
        SortOfSorted(s[StartAt(starts, |s|, m)..StartAt(starts, |s|, m + 1)]);
      } else {
        EmptyBlock(s, s, starts, m, 1);
      }
    }
  }

  ghost predicate RunSorted(s: seq<Centroid>, starts: seq<nat>, i: nat) {
    var lo, hi := StartAt(starts, |s|, i), StartAt(starts, |s|, i + 1);
    lo <= hi <= |s| && Sorted(s[lo..hi])
  }

  /** One round: merge neighbouring blocks of `size` runs. */
  method MergePairs(centroids: array<Centroid>, starts: seq<nat>, size: nat, ghost input: seq<Centroid>)
    requires RunStarts(starts, centroids.Length) && |input| == centroids.Length && size >= 1
    requires forall m: nat :: BlockSorted(centroids[..], input, starts, m, size)
    modifies centroids
    ensures forall m: nat :: BlockSorted(centroids[..], input, starts, m, 2 * size)
  {
    hide SortByMean, Sorted, MergeRuns;
    ghost var n := centroids.Length;
    ghost var q: nat := 0;
    var i: nat := 0;
    while i < |starts|
      invariant i == q * (2 * size)
      invariant forall m: nat :: m < q ==> BlockSorted(centroids[..], input, starts, m, 2 * size)
      invariant forall m: nat :: 2 * q <= m ==> BlockSorted(centroids[..], input, starts, m, size)
      decreases |starts| - i
    {
      ghost var s := centroids[..];
      Doubled(q, size);
      StartsOrdered(starts, n, i, i + size);
      StartsOrdered(starts, n, i + size, i + 2 * size);
      assert BlockSorted(s, input, starts, 2 * q, size) && BlockSorted(s, input, starts, 2 * q + 1, size);
      if i + size < |starts| {
        var first := starts[i];
        var middle := starts[i + size];
        var last := if i + 2 * size < |starts| then starts[i + 2 * size] else centroids.Length;
        ExternalMerge(centroids, first, middle, last);
        MergeSorts(s, centroids[..], input, first, middle, last);
      } else {
        assert BlockSorted(s, input, starts, q, 2 * size);
      }
      PairMerged(s, centroids[..], input, starts, q, size);
      q := q + 1;
      i := i + 2 * size;
    }
    forall m: nat ensures BlockSorted(centroids[..], input, starts, m, 2 * size) {
      if m >= q {
        ProductsOrdered(q, m, 2 * size);
        EmptyBlock(centroids[..], input, starts, m, 2 * size);
      }
    }
  }

  /** Merge blocks of runs, doubling the block size until one block is left: the result is the stable sort of
      the whole array, whatever the run lengths, empty runs included. */
  method MergeAllRuns(centroids: array<Centroid>, starts: seq<nat>)
    requires RunStarts(starts, centroids.Length)
    requires forall i: nat :: i < |starts| ==> RunSorted(centroids[..], starts, i)
    modifies centroids
    ensures centroids[..] == SortByMean(old(centroids[..]))
  {
    ghost var input := centroids[..];
    SingleRuns(input, starts);
    var digestsPerBlock: nat := 1;
    while digestsPerBlock < |starts|
      invariant digestsPerBlock >= 1
      invariant forall m: nat :: BlockSorted(centroids[..], input, starts, m, digestsPerBlock)
      decreases |starts| - digestsPerBlock
    {
      MergePairs(centroids, starts, digestsPerBlock, input);
      assert digestsPerBlock * 2 == 2 * digestsPerBlock;
      digestsPerBlock := digestsPerBlock * 2;
    }
    assert BlockSorted(centroids[..], input, starts, 0, digestsPerBlock);
    assert 0 * digestsPerBlock == 0 && (0 + 1) * digestsPerBlock == digestsPerBlock;
    assert input[0..|input|] == input && centroids[..][0..|input|] == centroids[..];
  }
}
