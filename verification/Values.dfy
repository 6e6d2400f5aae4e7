/** Plain statistics of a list of observations: the yardstick for the digests. */
module Values {
  import opened Centroids
  import opened Folds

  function Sum(vs: seq<real>): real {
    if vs == [] then 0.0 else vs[0] + Sum(vs[1..])
  }

  function Min(a: real, b: real): real {
    if a <= b then a else b
  }

  function Max(a: real, b: real): real {
    if a >= b then a else b
  }

  function MinOf(vs: seq<real>): real
    requires vs != []
  {
    if |vs| == 1 then vs[0] else Min(vs[0], MinOf(vs[1..]))
  }

  function MaxOf(vs: seq<real>): real
    requires vs != []
  {
    if |vs| == 1 then vs[0] else Max(vs[0], MaxOf(vs[1..]))
  }

  predicate Ascending(vs: seq<real>) {
    forall i, j :: 0 <= i < j < |vs| ==> vs[i] <= vs[j]
  }

  function InsertValue(v: real, vs: seq<real>): seq<real> {
    if vs == [] || v <= vs[0] then [v] + vs else [vs[0]] + InsertValue(v, vs[1..])
  }

  function SortValues(vs: seq<real>): seq<real> {
    if vs == [] then [] else InsertValue(vs[0], SortValues(vs[1..]))
  }

  /** Each observation as a centroid of weight one. */
  function Units(vs: seq<real>): (cs: seq<Centroid>)
    ensures |cs| == |vs|
    ensures forall i :: 0 <= i < |vs| ==> cs[i] == Centroid(vs[i], 1.0)
  {
    if vs == [] then [] else [Centroid(vs[0], 1.0)] + Units(vs[1..])
  }

  /** With the sum of two parts being the sum of the sums, this says what a sum is. */
  lemma SumOfOne(v: real)
    ensures Sum([]) == 0.0 && Sum([v]) == v
  {
    assert [v][1..] == [];
  }

  lemma OneIsWhole()
    ensures Whole(1.0)
  {
    IntIsWhole(1);
  }

  lemma UnitsWhole(vs: seq<real>)
    ensures AllWhole(Units(vs))
  {
    OneIsWhole();
  }

  lemma {:induction false} UnitTotals(vs: seq<real>)
    ensures Weight(Units(vs)) == |vs| as real
    ensures Mass(Units(vs)) == Sum(vs)
  {
    if vs != [] {
      UnitTotals(vs[1..]);
      TotalsOfConcat([Centroid(vs[0], 1.0)], Units(vs[1..]));
      SingletonTotals(Centroid(vs[0], 1.0));
    }
  }

  lemma {:induction false} ExtremesBound(vs: seq<real>)
    requires vs != []
    ensures MinOf(vs) in vs && MaxOf(vs) in vs
    ensures forall i :: 0 <= i < |vs| ==> MinOf(vs) <= vs[i] <= MaxOf(vs)
  {
    if |vs| > 1 {
      ExtremesBound(vs[1..]);
      forall i | 0 <= i < |vs| ensures MinOf(vs) <= vs[i] <= MaxOf(vs) {
        if i > 0 {
          assert vs[i] == vs[1..][i - 1];
        }
      }
    }
  }

  /** First and last of an ascending list are its extremes. */
  lemma ExtremesOfAscending(vs: seq<real>)
    requires vs != [] && Ascending(vs)
    ensures MinOf(vs) == vs[0] && MaxOf(vs) == vs[|vs| - 1]
  {
    ExtremesBound(vs);
    var i :| 0 <= i < |vs| && vs[i] == MinOf(vs);
    var j :| 0 <= j < |vs| && vs[j] == MaxOf(vs);
    assert vs[0] <= vs[i] && vs[j] <= vs[|vs| - 1];
  }

  lemma {:induction false} SumOfConcat(a: seq<real>, b: seq<real>)
    ensures Sum(a + b) == Sum(a) + Sum(b)
  {
    if a == [] {
      assert a + b == b;
    } else {
      SumOfConcat(a[1..], b);
      assert (a + b)[1..] == a[1..] + b;
    }
  }

  lemma {:induction false} ExtremesOfConcat(a: seq<real>, b: seq<real>)
    requires a != [] && b != []
    ensures MinOf(a + b) == Min(MinOf(a), MinOf(b))
    ensures MaxOf(a + b) == Max(MaxOf(a), MaxOf(b))
  {
    assert (a + b)[1..] == a[1..] + b;
    if |a| == 1 {
      assert a[1..] + b == b;
    } else {
      ExtremesOfConcat(a[1..], b);
    }
  }

  // ----- sorting values is sorting unit centroids

  lemma {:induction false} UnitsOfInsert(v: real, vs: seq<real>)
    ensures Units(InsertValue(v, vs)) == Insert(Centroid(v, 1.0), Units(vs))
  {
    if vs != [] && !(v <= vs[0]) {
      UnitsOfInsert(v, vs[1..]);
    }
  }

  /** Sorting the observations and sorting their unit centroids is the same. */
  lemma {:induction false} UnitsOfSort(vs: seq<real>)
    ensures Units(SortValues(vs)) == SortByMean(Units(vs))
  {
    if vs != [] {
      UnitsOfSort(vs[1..]);
      UnitsOfInsert(vs[0], SortValues(vs[1..]));
    }
  }

  lemma SortValuesSorts(vs: seq<real>)
    ensures Ascending(SortValues(vs))
    ensures |SortValues(vs)| == |vs|
  {
    UnitsOfSort(vs);
    SortByMeanSorts(Units(vs));
    var s := SortValues(vs);
    forall i, j | 0 <= i < j < |s| ensures s[i] <= s[j] {
      assert Units(s)[i].mean <= Units(s)[j].mean;
    }
  }

  lemma SortedUnits(vs: seq<real>)
    requires Ascending(vs)
    ensures Sorted(Units(vs))
    ensures SortValues(vs) == vs
  {
    SortOfSorted(Units(vs));
    UnitsOfSort(vs);
    UnitsInjective(SortValues(vs), vs);
  }

  lemma UnitsInjective(a: seq<real>, b: seq<real>)
    requires Units(a) == Units(b)
    ensures a == b
  {
    assert |a| == |b|;
    forall i | 0 <= i < |a| ensures a[i] == b[i] {
      assert Units(a)[i] == Units(b)[i];
    }
  }

  lemma {:induction false} SortValuesHolds(vs: seq<real>)
    ensures multiset(SortValues(vs)) == multiset(vs)
  {
    if vs != [] {
      SortValuesHolds(vs[1..]);
      InsertValueHolds(vs[0], SortValues(vs[1..]));
      assert vs == [vs[0]] + vs[1..];
    }
  }

  lemma {:induction false} InsertValueHolds(v: real, vs: seq<real>)
    ensures multiset(InsertValue(v, vs)) == multiset{v} + multiset(vs)
  {
    if vs != [] && !(v <= vs[0]) {
      InsertValueHolds(v, vs[1..]);
      assert vs == [vs[0]] + vs[1..];
    }
  }

  // ----- what does not depend on the order of arrival

  /** Insert the observations one by one, the first one last, into the sorted centroids. */
  function Arrange(vs: seq<real>, cs: seq<Centroid>): seq<Centroid> {
    if vs == [] then SortByMean(cs) else Insert(Centroid(vs[0], 1.0), Arrange(vs[1..], cs))
  }

  lemma {:induction false} ArrangeSorts(vs: seq<real>, cs: seq<Centroid>)
    ensures Arrange(vs, cs) == SortByMean(Units(vs) + cs)
  {
    if vs == [] {
      assert Units(vs) + cs == cs;
    } else {
      ArrangeSorts(vs[1..], cs);
      SortOfCons(Centroid(vs[0], 1.0), Units(vs[1..]), cs);
    }
  }

  lemma {:induction false} ArrangeMovesFront(a: seq<real>, v: real, b: seq<real>, cs: seq<Centroid>)
    ensures Arrange(a + [v] + b, cs) == Insert(Centroid(v, 1.0), Arrange(a + b, cs))
    decreases |a|
  {
    if a == [] {
      assert a + [v] + b == [v] + b && a + b == b;
    } else {
      ArrangeMovesFront(a[1..], v, b, cs);
      assert (a + [v] + b)[1..] == a[1..] + [v] + b;
      assert (a + b)[1..] == a[1..] + b;
      InsertsCommute(Centroid(a[0], 1.0), Centroid(v, 1.0), Arrange(a[1..] + b, cs));
    }
  }

  lemma {:induction false} ArrangeIgnoresArrival(vs: seq<real>, ws: seq<real>, cs: seq<Centroid>)
    requires multiset(vs) == multiset(ws)
    ensures Arrange(vs, cs) == Arrange(ws, cs)
    decreases |vs|
  {
    if vs == [] {
      assert |multiset(ws)| == 0;
    } else {
      assert vs == [vs[0]] + vs[1..];
      var a, b := TakeOut(vs[0], vs[1..], ws);
      assert ws == a + [vs[0]] + b;
      ArrangeIgnoresArrival(vs[1..], a + b, cs);
      ArrangeMovesFront(a, vs[0], b, cs);
    }
  }

  /** Observations in any order, together with the same centroids, sort to the same list. */
  lemma SortIgnoresArrival(vs: seq<real>, ws: seq<real>, cs: seq<Centroid>)
    requires multiset(vs) == multiset(ws)
    ensures SortByMean(Units(vs) + cs) == SortByMean(Units(ws) + cs)
  {
    ArrangeSorts(vs, cs);
    ArrangeSorts(ws, cs);
    ArrangeIgnoresArrival(vs, ws, cs);
  }
}
