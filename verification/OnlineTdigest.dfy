/** The online digest (aggregation/online_tdigest.rs): a write buffer of 32 observations in front of a t-digest.
    The class works in place; what it does is stated on values, and every run of it agrees with a plain list. */
module OnlineTdigests {
  import opened Options
  import opened DigestGroups
  import opened TDigests
  import opened DigestMerging

  const BUFFER_SIZE := 32

  /** The digest so far and the observations that wait in the buffer. */
  datatype Online = Online(current: TDigest, waiting: seq<real>)

  datatype Op = Observe(v: real) | Get | Reset | ResetMut

  ghost predicate Good(s: Online) {
    s.current.Valid() && |s.waiting| < BUFFER_SIZE
  }

  const EMPTY := Online(Default(), [])

  /** Merge what waits into the digest. */
  function Flushed(s: Online): Online
    requires s.current.Valid()
  {
    Online(Absorb(s.current, s.waiting), [])
  }

  /** One call: the next state, and the snapshot it returns, if any. */
  function Next(s: Online, op: Op): (Online, Option<TDigest>)
    requires Good(s)
  {
    match op
    case Observe(v) =>
      var fuller := Online(s.current, s.waiting + [v]);
      (if |fuller.waiting| == BUFFER_SIZE then Flushed(fuller) else fuller, None)
    case Get => (Flushed(s), Some(Flushed(s).current))
    case Reset => (EMPTY, Some(Flushed(s).current))
    case ResetMut => (Online(Flushed(s).current.Reset(), []), Some(Flushed(s).current))
  }

  lemma NextGood(s: Online, op: Op)
    requires Good(s)
    ensures Good(Next(s, op).0)
    ensures Next(s, op).1.Some? ==> Next(s, op).1.value.Valid()
  {
    AbsorbKeepsInvariant(s.current, s.waiting);
    if op.Observe? {
      AbsorbKeepsInvariant(s.current, s.waiting + [op.v]);
    }
    assert Default().Valid();
  }

  // ----- the class

  class State {
    var current: TDigest
    const amortizedObservations: array<real>
    var i: nat

    ghost predicate Valid()
      reads this, amortizedObservations
    {
      amortizedObservations.Length == BUFFER_SIZE && i < BUFFER_SIZE && current.Valid()
    }

    /** The value of the state: slots from i on hold stale observations and do not matter. */
    ghost function View(): Online
      requires amortizedObservations.Length == BUFFER_SIZE && i <= BUFFER_SIZE
      reads this, amortizedObservations
    {
      Online(current, amortizedObservations[..i])
    }

    constructor ()
      ensures Valid() && View() == EMPTY && fresh(amortizedObservations)
    {
      current := Default();
      amortizedObservations := new real[BUFFER_SIZE](_ => 0.0);
      i := 0;
      assert Default().Valid();
    }

    method FlushState()
      requires amortizedObservations.Length == BUFFER_SIZE && i <= BUFFER_SIZE && current.Valid()
      modifies this
      ensures Valid() && View() == Flushed(old(View()))
    {
      AbsorbKeepsInvariant(current, amortizedObservations[..i]);
      if i < 1 {
        return;
      }
      var new_ := MergeUnsorted(current, amortizedObservations[0..i]);
      assert amortizedObservations[0..i] == amortizedObservations[..i];
      current := new_;
      i := 0;
    }

    /** observe and observe_mut. */
    method RecordObservation(observation: real)
      requires Valid()
      modifies this, amortizedObservations
      ensures Valid() && View() == Next(old(View()), Observe(observation)).0
    {
      ghost var before := View();
      var index := i;
      amortizedObservations[index] := observation;
      i := i + 1;
      assert amortizedObservations[..i] == before.waiting + [observation];
      if i == amortizedObservations.Length {
        FlushState();
      }
    }

    /** get and get_mut. */
    method GetSnapshot() returns (snapshot: TDigest)
      requires Valid()
      modifies this
      ensures Valid() && (View(), Some(snapshot)) == Next(old(View()), Get)
    {
      FlushState();
      snapshot := current;
    }

    /** reset: a fresh default digest replaces the current one. */
    method ResetToDefault() returns (snapshot: TDigest)
      requires Valid()
      modifies this
      ensures Valid() && (View(), Some(snapshot)) == Next(old(View()), Reset)
    {
      snapshot := GetSnapshot();
      current := Default();
      assert Default().Valid();
    }

    /** reset_mut: the current digest is emptied in place. */
    method GetSnapshotAndReset() returns (snapshot: TDigest)
      requires Valid()
      modifies this
      ensures Valid() && (View(), Some(snapshot)) == Next(old(View()), ResetMut)
    {
      snapshot := GetSnapshot();
      current := current.Reset();
    }
  }

  // ----- every run agrees with a plain list of the observations since the last reset

  /** The digest describes exactly the observations of the list, and is not too large. */
  ghost predicate Summarizes(digest: TDigest, observed: seq<real>) {
    && Describes(digest, observed)
    && digest.maxSize == 100 && |digest.centroids| <= 100
  }

  lemma AbsorbSummarizes(digest: TDigest, observed: seq<real>, batch: seq<real>)
    requires Summarizes(digest, observed)
    ensures Summarizes(Absorb(digest, batch), observed + batch)
  {
    hide Absorb, Partitions;
    AbsorbDescribes(digest, observed, batch);
    AbsorbKeepsInvariant(digest, batch);
    if batch == [] {
      AbsorbNothing(digest);
    }
  }

  lemma AbsorbNothing(digest: TDigest)
    requires digest.Valid()
    ensures Absorb(digest, []) == digest
  {
  }

  lemma EmptySummarizes()
    ensures Summarizes(Default(), []) && Good(EMPTY)
  {
    NothingDescribed(Default());
  }

  /** The plain list machine. */
  function NextList(observed: seq<real>, op: Op): (seq<real>, Option<seq<real>>) {
    match op
    case Observe(v) => (observed + [v], None)
    case Get => (observed, Some(observed))
    case Reset => ([], Some(observed))
    case ResetMut => ([], Some(observed))
  }

  /** The state stands for the list: some prefix is summarized in the digest, the rest waits. */
  ghost predicate StandsFor(s: Online, observed: seq<real>) {
    && Good(s) && |s.waiting| <= |observed|
    && s.waiting == observed[|observed| - |s.waiting|..]
    && Summarizes(s.current, observed[..|observed| - |s.waiting|])
  }

  lemma FlushedStandsFor(s: Online, observed: seq<real>)
    requires s.current.Valid() && |s.waiting| <= |observed|
    requires s.waiting == observed[|observed| - |s.waiting|..]
    requires Summarizes(s.current, observed[..|observed| - |s.waiting|])
    ensures Summarizes(Flushed(s).current, observed) && StandsFor(Flushed(s), observed)
  {
    var k := |observed| - |s.waiting|;
    assert observed == observed[..k] + s.waiting;
    AbsorbSummarizes(s.current, observed[..k], s.waiting);
    assert observed[..|observed|] == observed;
  }

  lemma ObserveRefines(s: Online, observed: seq<real>, v: real)
    requires StandsFor(s, observed)
    ensures StandsFor(Next(s, Observe(v)).0, observed + [v])
  {
    hide Absorb, Summarizes;
    var observed' := observed + [v];
    var fuller := Online(s.current, s.waiting + [v]);
    assert observed'[|observed'| - |fuller.waiting|..] == fuller.waiting;
    assert observed'[..|observed'| - |fuller.waiting|] == observed[..|observed| - |s.waiting|];
    FlushedStandsFor(fuller, observed');
  }

  lemma ResetStandsFor(digest: TDigest, observed: seq<real>)
    requires Summarizes(digest, observed)
    ensures StandsFor(Online(digest.Reset(), []), []) && StandsFor(EMPTY, [])
  {
    NothingDescribed(digest.Reset());
    EmptySummarizes();
  }

  /** One call keeps the correspondence, and its snapshot summarizes the list. */
  lemma NextRefines(s: Online, observed: seq<real>, op: Op)
    requires StandsFor(s, observed)
    ensures StandsFor(Next(s, op).0, NextList(observed, op).0)
    ensures Next(s, op).1.Some? <==> NextList(observed, op).1.Some?
    ensures Next(s, op).1.Some? ==> Summarizes(Next(s, op).1.value, NextList(observed, op).1.value)
  {
    assert Good(s);
    hide StandsFor, Next, NextList;
    if op.Observe? {
      ObserveRefines(s, observed, op.v);
      NextObserve(s, observed, op.v);
    } else {
      SnapshotRefines(s, observed, op);
    }
  }

  lemma NextObserve(s: Online, observed: seq<real>, v: real)
    requires Good(s)
    ensures Next(s, Observe(v)).1 == None && NextList(observed, Observe(v)) == (observed + [v], None)
  {
    hide Flushed;
  }

  lemma FlushOf(s: Online, observed: seq<real>)
    requires StandsFor(s, observed)
    ensures Good(s) && s.current.Valid() && Summarizes(Flushed(s).current, observed) && StandsFor(Flushed(s), observed)
  {
    FlushedStandsFor(s, observed);
  }

  lemma NextSnapshot(s: Online, observed: seq<real>, op: Op)
    requires Good(s) && !op.Observe?
    ensures Next(s, op).1 == Some(Flushed(s).current) && NextList(observed, op).1 == Some(observed)
    ensures op.Get? ==> Next(s, op).0 == Flushed(s) && NextList(observed, op).0 == observed
    ensures op.Reset? ==> Next(s, op).0 == EMPTY && NextList(observed, op).0 == []
    ensures op.ResetMut? ==> Next(s, op).0 == Online(Flushed(s).current.Reset(), []) && NextList(observed, op).0 == []
  {
    hide Flushed;
  }

  lemma SnapshotRefines(s: Online, observed: seq<real>, op: Op)
    requires StandsFor(s, observed) && !op.Observe?
    ensures StandsFor(Next(s, op).0, NextList(observed, op).0)
    ensures Next(s, op).1.Some? && NextList(observed, op).1.Some?
    ensures Summarizes(Next(s, op).1.value, NextList(observed, op).1.value)
  {
    hide *;
    FlushOf(s, observed);
    NextSnapshot(s, observed, op);
    ResetStandsFor(Flushed(s).current, observed);
  }

  /** All snapshots of a run. */
  function Snapshots(s: Online, ops: seq<Op>): seq<TDigest>
    requires Good(s)
    decreases |ops|
  {
    if ops == [] then [] else
      NextGood(s, ops[0]);
      var (s', snapshot) := Next(s, ops[0]);
      (if snapshot.Some? then [snapshot.value] else []) + Snapshots(s', ops[1..])
  }

  function Lists(observed: seq<real>, ops: seq<Op>): seq<seq<real>>
    decreases |ops|
  {
    if ops == [] then [] else
      var (observed', list) := NextList(observed, ops[0]);
      (if list.Some? then [list.value] else []) + Lists(observed', ops[1..])
  }

  /** In every run, every snapshot agrees with the observations since the last reset. */
  lemma {:induction false} RunRefinesList(s: Online, observed: seq<real>, ops: seq<Op>)
    requires StandsFor(s, observed)
    ensures |Snapshots(s, ops)| == |Lists(observed, ops)|
    ensures forall k :: 0 <= k < |Snapshots(s, ops)| ==> Summarizes(Snapshots(s, ops)[k], Lists(observed, ops)[k])
    decreases |ops|
  {
    hide Next, NextList, Summarizes;
    if ops != [] {
      NextRefines(s, observed, ops[0]);
      RunRefinesList(Next(s, ops[0]).0, NextList(observed, ops[0]).0, ops[1..]);
    }
  }

  lemma FreshRunRefinesList(ops: seq<Op>)
    ensures Good(EMPTY)
    ensures |Snapshots(EMPTY, ops)| == |Lists([], ops)|
    ensures forall k :: 0 <= k < |Snapshots(EMPTY, ops)| ==> Summarizes(Snapshots(EMPTY, ops)[k], Lists([], ops)[k])
  {
    EmptySummarizes();
    RunRefinesList(EMPTY, [], ops);
  }

  /** The state after some observations and no other call. */
  ghost function After(s: Online, vs: seq<real>): (t: Online)
    requires Good(s)
    ensures Good(t)
    decreases |vs|
  {
    if vs == [] then s else
      var front := After(s, vs[..|vs| - 1]);
      NextGood(front, Observe(vs[|vs| - 1]));
      Next(front, Observe(vs[|vs| - 1])).0
  }

  /** The buffer is emptied into the digest by every 32nd observation and by no other. */
  lemma {:induction false} WaitingAfter(s: Online, vs: seq<real>)
    requires Good(s)
    ensures |After(s, vs).waiting| == (|s.waiting| + |vs|) % 32
    ensures |s.waiting| + |vs| < 32 ==> After(s, vs).current == s.current
  {
    hide Flushed, TDigests.Absorb;
    if vs != [] {
      WaitingAfter(s, vs[..|vs| - 1]);
      NextWaiting(After(s, vs[..|vs| - 1]), vs[|vs| - 1]);
    }
  }

  lemma NextWaiting(s: Online, v: real)
    requires Good(s)
    ensures |Next(s, Observe(v)).0.waiting| == (|s.waiting| + 1) % 32
    ensures |s.waiting| + 1 < 32 ==> Next(s, Observe(v)).0.current == s.current
  {
  }

  // ----- the two reset paths

  /** Equal, except possibly in the extremes of an empty digest. */
  predicate Alike(a: TDigest, b: TDigest) {
    a.centroids == b.centroids && a.maxSize == b.maxSize && a.sum == b.sum && a.count == b.count &&
    (a.centroids != [] ==> a == b)
  }

  /** Which reset a call uses does not matter here. */
  predicate SameCall(a: Op, b: Op) {
    a == b || (a.Reset? && b.ResetMut?) || (a.ResetMut? && b.Reset?)
  }

  lemma AbsorbAlike(a: TDigest, b: TDigest, batch: seq<real>)
    requires a.Valid() && b.Valid() && Alike(a, b)
    ensures Alike(Absorb(a, batch), Absorb(b, batch))
    ensures batch != [] ==> Absorb(a, batch) == Absorb(b, batch)
  {
    CountSign(a);
    CountSign(b);
  }

  ghost predicate AlikeStates(s: Online, t: Online) {
    Good(s) && Good(t) && Alike(s.current, t.current) && s.waiting == t.waiting && s.current.maxSize == 100
  }

  lemma NextAlike(s: Online, t: Online, op: Op, op': Op)
    requires AlikeStates(s, t) && SameCall(op, op')
    ensures AlikeStates(Next(s, op).0, Next(t, op').0)
    ensures Next(s, op).1.Some? <==> Next(t, op').1.Some?
    ensures Next(s, op).1.Some? ==> Alike(Next(s, op).1.value, Next(t, op').1.value)
  {
    NextGood(s, op);
    NextGood(t, op');
    AbsorbAlike(s.current, t.current, s.waiting);
    if op.Observe? {
      AbsorbAlike(s.current, t.current, s.waiting + [op.v]);
      AbsorbKeepsInvariant(s.current, s.waiting + [op.v]);
    }
    AbsorbKeepsInvariant(s.current, s.waiting);
  }

  /** Two runs that differ only in which reset they use give the same snapshots, except for the extremes of empty
      ones. */
  lemma {:induction false} ResetPathsAgree(s: Online, t: Online, ops: seq<Op>, ops': seq<Op>)
    requires AlikeStates(s, t)
    requires |ops| == |ops'| && forall k :: 0 <= k < |ops| ==> SameCall(ops[k], ops'[k])
    ensures |Snapshots(s, ops)| == |Snapshots(t, ops')|
    ensures forall k :: 0 <= k < |Snapshots(s, ops)| ==>
              Alike(Snapshots(s, ops)[k], Snapshots(t, ops')[k]) &&
              (Snapshots(s, ops)[k].centroids != [] ==> Snapshots(s, ops)[k] == Snapshots(t, ops')[k])
    decreases |ops|
  {
    if ops != [] {
      NextGood(s, ops[0]);
      NextGood(t, ops'[0]);
      NextAlike(s, t, ops[0], ops'[0]);
      ResetPathsAgree(Next(s, ops[0]).0, Next(t, ops'[0]).0, ops[1..], ops'[1..]);
    }
  }
}
