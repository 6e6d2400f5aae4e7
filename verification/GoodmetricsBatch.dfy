/** The goodmetrics batcher (downstream/goodmetrics_downstream.rs): it drains the aggregator's map into data, and
    renders names as text on the way. */
module GoodmetricsBatches {
  import opened Aggregations
  import opened Aggregators
  import opened Types

  datatype WireDimension = Text(text: string) | WireNumber(n: U64) | WireBoolean(b: bool)

  datatype Datum = Datum(
    metric: string, dimensions: map<string, WireDimension>, measurements: map<string, Aggregation>)

  function ToWireDimension(d: Dimension): WireDimension {
    match d
    case StrText(text) => Text(text)
    case OwnedText(text) => Text(text)
    case SharedText(text) => Text(text)
    case Number(n) => WireNumber(n)
    case Boolean(b) => WireBoolean(b)
  }

  // ----- rendering the names of a map

  /** One entry for each text, which is the entry of some name with that text. */
  ghost predicate Renders<V(!new)>(rendered: map<string, V>, entries: map<Name, V>) {
    && (forall name :: name in entries ==> name.text in rendered)
    && (forall text :: text in rendered ==> exists name :: IsSource(name, text, rendered, entries))
  }

  predicate IsSource<V(==)>(name: Name, text: string, rendered: map<string, V>, entries: map<Name, V>)
    requires text in rendered
  {
    name in entries && name.text == text && rendered[text] == entries[name]
  }

  /** No two names with the same text. */
  ghost predicate Distinct(names: set<Name>) {
    forall a, b :: a in names && b in names && a.text == b.text ==> a == b
  }

  method Render<V(==, !new)>(entries: map<Name, V>) returns (rendered: map<string, V>)
    ensures Renders(rendered, entries)
  {
    rendered := map[];
    var left := entries;
    while left != map[]
      invariant left.Keys <= entries.Keys && forall name :: name in left ==> left[name] == entries[name]
      invariant forall name :: name in entries && name !in left ==> name.text in rendered
      invariant forall text :: text in rendered ==> exists name :: IsSource(name, text, rendered, entries)
      decreases |left|
    {
      ghost var before := rendered;
      var name :| name in left;
      rendered := rendered[name.text := left[name]];
      left := left - {name};
      assert IsSource(name, name.text, rendered, entries);
      forall text | text in before && text != name.text ensures exists n :: IsSource(n, text, rendered, entries) {
        var n :| IsSource(n, text, before, entries);
        assert IsSource(n, text, rendered, entries);
      }
    }
  }

  function Texts(names: set<Name>): set<string> {
    set name | name in names :: name.text
  }

  lemma {:induction false} TextsSize(names: set<Name>)
    ensures |Texts(names)| <= |names|
    ensures |Texts(names)| == |names| <==> Distinct(names)
  {
    if names != {} {
      var name :| name in names;
      var rest := names - {name};
      TextsSize(rest);
      if name.text in Texts(rest) {
        assert Texts(names) == Texts(rest);
        var other :| other in rest && other.text == name.text;
      } else {
        assert Texts(names) == Texts(rest) + {name.text};
        assert Distinct(rest) ==> Distinct(names);
      }
    }
  }

  /** Rendering keeps as many entries as there are, and then each of them, exactly if no two names share a text. */
  lemma RenderLossless<V(!new)>(rendered: map<string, V>, entries: map<Name, V>)
    requires Renders(rendered, entries)
    ensures |rendered| == |entries| <==> Distinct(entries.Keys)
    ensures Distinct(entries.Keys) ==> forall name :: name in entries ==> rendered[name.text] == entries[name]
  {
    TextsSize(entries.Keys);
    forall text | text in rendered ensures text in Texts(entries.Keys) {
      var name :| IsSource(name, text, rendered, entries);
    }
    assert rendered.Keys == Texts(entries.Keys);
    if Distinct(entries.Keys) {
      forall name | name in entries ensures rendered[name.text] == entries[name] {
        var source :| IsSource(source, name.text, rendered, entries);
      }
    }
  }

  // ----- one datum for each position of each metric

  datatype Place = Place(name: Name, position: DimensionPosition)

  predicate IsPlace(place: Place, metrics: AggregatedMetrics) {
    place.name in metrics && place.position in metrics[place.name]
  }

  /** The dimension arrives as the text, number or boolean it is. */
  predicate ArrivesAs(d: Dimension, wire: WireDimension) {
    match wire
    case Text(text) => !d.Number? && !d.Boolean? && d.text == text
    case WireNumber(n) => d == Number(n)
    case WireBoolean(b) => d == Boolean(b)
  }

  function WirePosition(position: DimensionPosition): (wire: map<Name, WireDimension>)
    ensures wire.Keys == position.Keys
    ensures forall name :: name in position ==> ArrivesAs(position[name], wire[name])
  {
    map name | name in position :: ToWireDimension(position[name])
  }

  /** One entry for each text of a dimension, which is how some dimension with that text arrives. */
  ghost predicate Shows(rendered: map<string, WireDimension>, position: DimensionPosition) {
    && (forall name :: name in position ==> name.text in rendered)
    && (forall text :: text in rendered ==> exists name :: Shown(name, text, rendered[text], position))
  }

  predicate Shown(name: Name, text: string, wire: WireDimension, position: DimensionPosition) {
    name in position && name.text == text && ArrivesAs(position[name], wire)
  }

  lemma RenderedShows(rendered: map<string, WireDimension>, position: DimensionPosition)
    requires Renders(rendered, WirePosition(position))
    ensures Shows(rendered, position)
  {
    forall text | text in rendered ensures exists name :: Shown(name, text, rendered[text], position) {
      var name :| IsSource(name, text, rendered, WirePosition(position));
      assert Shown(name, text, rendered[text], position);
    }
  }

  ghost predicate IsDatum(datum: Datum, place: Place, metrics: AggregatedMetrics)
    requires IsPlace(place, metrics)
  {
    && datum.metric == place.name.text
    && Shows(datum.dimensions, place.position)
    && Renders(datum.measurements, metrics[place.name][place.position])
  }

  /** The data are those of the places, one each. */
  ghost predicate Lists(datums: seq<Datum>, places: seq<Place>, metrics: AggregatedMetrics) {
    && |places| == |datums|
    && (forall i, j :: 0 <= i < j < |places| ==> places[i] != places[j])
    && (forall i :: 0 <= i < |places| ==> IsPlace(places[i], metrics) && IsDatum(datums[i], places[i], metrics))
  }

  lemma ListsNext(datums: seq<Datum>, places: seq<Place>, metrics: AggregatedMetrics, datum: Datum, place: Place)
    requires Lists(datums, places, metrics) && IsPlace(place, metrics) && IsDatum(datum, place, metrics)
    requires place !in places
    ensures Lists(datums + [datum], places + [place], metrics)
  {
    hide IsPlace, IsDatum;
  }

  method AsDatums(name: Name, positions: Positions, ghost metrics: AggregatedMetrics, before: seq<Datum>, ghost filed: seq<Place>)
    returns (datums: seq<Datum>, ghost places: seq<Place>)
    requires name in metrics && metrics[name] == positions && Lists(before, filed, metrics)
    requires forall place :: place in filed ==> place.name != name
    ensures Lists(datums, places, metrics)
    ensures forall place :: place in places <==> place in filed || (place.name == name && place.position in positions)
  {
    hide Lists, IsDatum, Renders, Shows, WirePosition, ArrivesAs;
    datums, places := before, filed;
    var left := positions;
    while left != map[]
      invariant left.Keys <= positions.Keys && forall p :: p in left ==> left[p] == positions[p]
      invariant Lists(datums, places, metrics)
      invariant forall place :: place in places <==>
        place in filed || (place.name == name && place.position in positions && place.position !in left)
      decreases |left|
    {
      var position :| position in left;
      var dimensions := Render(WirePosition(position));
      var measurements := Render(left[position]);
      left := left - {position};
      var datum := Datum(name.text, dimensions, measurements);
      DatumIs(datum, Place(name, position), metrics);
      ListsNext(datums, places, metrics, datum, Place(name, position));
      datums, places := datums + [datum], places + [Place(name, position)];
    }
  }

  lemma DatumIs(datum: Datum, place: Place, metrics: AggregatedMetrics)
    requires IsPlace(place, metrics) && datum.metric == place.name.text
    requires Renders(datum.dimensions, WirePosition(place.position))
    requires Renders(datum.measurements, metrics[place.name][place.position])
    ensures IsDatum(datum, place, metrics)
  {
    RenderedShows(datum.dimensions, place.position);
  }

  /** One datum for each dimension position of each metric, and no other. */
  ghost predicate IsBatch(datums: seq<Datum>, metrics: AggregatedMetrics) {
    exists places ::
      Lists(datums, places, metrics) && forall place :: place in places <==> IsPlace(place, metrics)
  }

  method BatchAggregations(metrics: AggregatedMetrics) returns (datums: seq<Datum>)
    ensures IsBatch(datums, metrics)
  {
    hide Lists;
    datums := [];
    ghost var places: seq<Place> := [];
    NothingListed(metrics);
    var left := metrics;
    while left != map[]
      invariant left.Keys <= metrics.Keys && forall name :: name in left ==> left[name] == metrics[name]
      invariant Lists(datums, places, metrics)
      invariant forall place :: place in places <==> IsPlace(place, metrics) && place.name !in left
      decreases |left|
    {
      var name :| name in left;
      var positions := left[name];
      left := left - {name};
      datums, places := AsDatums(name, positions, metrics, datums, places);
    }
  }

  lemma NothingListed(metrics: AggregatedMetrics)
    ensures Lists([], [], metrics)
  {
  }
}
