/** The values a measurement may carry (types.rs). */
module Types {

  /** Reinterpreting an unsigned 64-bit value as a signed one. */
  function AsI64(u: nat): (i: int)
    requires u < 0x1_0000_0000_0000_0000
    ensures I64_MIN <= i <= I64_MAX && (i - u) % 0x1_0000_0000_0000_0000 == 0
  {
    if u < 0x8000_0000_0000_0000 then u else u - 0x1_0000_0000_0000_0000
  }

  type U64 = u: nat | u < 0x1_0000_0000_0000_0000

  const I64_MIN: int := -0x8000_0000_0000_0000
  const I64_MAX: int := 0x7FFF_FFFF_FFFF_FFFF

  /** A floating point value cut off toward zero and kept within 64 bits. */
  function Truncated(x: real): (i: int)
    ensures I64_MIN <= i <= I64_MAX
    ensures 0.0 <= x < I64_MAX as real + 1.0 ==> i as real <= x < i as real + 1.0
    ensures I64_MIN as real - 1.0 < x <= 0.0 ==> i as real - 1.0 < x <= i as real
    ensures x >= I64_MAX as real ==> i == I64_MAX
    ensures x <= I64_MIN as real ==> i == I64_MIN
  {
    var whole := if x >= 0.0 then x.Floor else -((-x).Floor);
    if whole < I64_MIN then I64_MIN else if whole > I64_MAX then I64_MAX else whole
  }

  /** Names are compared with the form they are kept in: a static "a" is not an owned "a". */
  datatype Name = Str(text: string) | Owned(text: string) | Shared(text: string)

  datatype Dimension =
    | StrText(text: string) | OwnedText(text: string) | SharedText(text: string) | Number(n: U64) | Boolean(b: bool)

  type DimensionPosition = map<Name, Dimension>

  datatype Observation = I64(i: int) | I32(i: int) | U64Value(u: U64) | U32(i: int) | Float(x: real) {
    function Value(): int {
      match this
      case I64(i) => i
      case I32(i) => i
      case U64Value(u) => AsI64(u)
      case U32(i) => i
      case Float(x) => Truncated(x)
    }
  }

  /** A timer stands for the nanoseconds it holds when the distribution is absorbed. */
  datatype Distribution =
    | DI64(i: int)
    | DI32(i: int)
    | DU64(u: U64)
    | DU32(i: int)
    | Collection(values: seq<int>)
    | Timer(nanos: U64)
  {
    /** The signed integers a distribution stands for. */
    function Values(): seq<int> {
      match this
      case DI64(i) => [i]
      case DI32(i) => [i]
      case DU64(u) => [AsI64(u)]
      case DU32(i) => [i]
      case Collection(values) => values
      case Timer(nanos) => [AsI64(nanos)]
    }

    /** The exact values, which the sketches take instead. */
    function RealValues(): seq<real> {
      match this
      case DI64(i) => [i as real]
      case DI32(i) => [i as real]
      case DU64(u) => [u as real]
      case DU32(i) => [i as real]
      case Collection(values) => seq(|values|, k requires 0 <= k < |values| => values[k] as real)
      case Timer(nanos) => [nanos as real]
    }
  }

  // ----- what the values are, in terms of the form they came in

  predicate IsI64(v: int) {
    I64_MIN <= v <= I64_MAX
  }

  /** v is the signed value with the same 64 bits. */
  predicate SameBits(u: U64, v: int) {
    IsI64(v) && (v - u) % 0x1_0000_0000_0000_0000 == 0
  }

  /** v is x without its fraction, or the nearest end of the 64-bit range. */
  predicate CutsTo(x: real, v: int) {
    if x >= I64_MAX as real then v == I64_MAX
    else if x <= I64_MIN as real then v == I64_MIN
    else if x >= 0.0 then v as real <= x < v as real + 1.0
    else v as real - 1.0 < x <= v as real
  }

  /** The observation counts as v. */
  predicate MeasuresAs(o: Observation, v: int) {
    match o
    case I64(i) => v == i
    case I32(i) => v == i
    case U32(i) => v == i
    case U64Value(u) => SameBits(u, v)
    case Float(x) => CutsTo(x, v)
  }

  lemma ValueMeasures(o: Observation, v: int)
    ensures MeasuresAs(o, v) <==> v == o.Value()
  {
    match o {
      case I64(_) =>
      case I32(_) =>
      case U32(_) =>
      case U64Value(u) =>
        if SameBits(u, v) {
          SameBitsOnce(u, v, AsI64(u));
        }
      case Float(x) =>
        if CutsTo(x, v) {
          CutsOnce(x, v, Truncated(x));
        }
    }
  }

  lemma SameBitsOnce(u: U64, v: int, w: int)
    requires SameBits(u, v) && SameBits(u, w)
    ensures v == w
  {
  }

  lemma CutsOnce(x: real, v: int, w: int)
    requires CutsTo(x, v) && CutsTo(x, w)
    ensures v == w
  {
  }

  /** In a histogram the distribution counts as these values. */
  predicate SpreadsAs(d: Distribution, vs: seq<int>) {
    match d
    case DI64(i) => vs == [i]
    case DI32(i) => vs == [i]
    case DU32(i) => vs == [i]
    case DU64(u) => |vs| == 1 && SameBits(u, vs[0])
    case Timer(nanos) => |vs| == 1 && SameBits(nanos, vs[0])
    case Collection(values) => vs == values
  }

  /** In a sketch the distribution counts as these values, unsigned ones unchanged. */
  predicate SketchesAs(d: Distribution, xs: seq<real>) {
    match d
    case DI64(i) => xs == [i as real]
    case DI32(i) => xs == [i as real]
    case DU32(i) => xs == [i as real]
    case DU64(u) => xs == [u as real]
    case Timer(nanos) => xs == [nanos as real]
    case Collection(values) => |xs| == |values| && forall k :: 0 <= k < |xs| ==> xs[k] == values[k] as real
  }

  lemma ValuesSpread(d: Distribution, vs: seq<int>)
    ensures SpreadsAs(d, vs) <==> vs == d.Values()
  {
    if SpreadsAs(d, vs) {
      match d {
        case DI64(_) =>
        case DI32(_) =>
        case DU32(_) =>
        case Collection(_) =>
        case DU64(u) => SameBitsOnce(u, vs[0], AsI64(u));
        case Timer(nanos) => SameBitsOnce(nanos, vs[0], AsI64(nanos));
      }
    }
  }

  lemma RealValuesSketch(d: Distribution, xs: seq<real>)
    ensures SketchesAs(d, xs) <==> xs == d.RealValues()
  {
  }

  /** Histograms and sketches see the same values, except that an unsigned value from 2^63 on is negative in a
      histogram. */
  lemma ValuesAgree(d: Distribution, k: nat)
    requires k < |d.Values()|
    ensures |d.RealValues()| == |d.Values()|
    ensures d.RealValues()[k] == d.Values()[k] as real
            <==> !(d.DU64? && d.u > I64_MAX) && !(d.Timer? && d.nanos > I64_MAX)
  {
    assert d.RealValues()[k] == if d.DU64? then d.u as real else if d.Timer? then d.nanos as real else d.Values()[k] as real;
  }

  datatype Measurement = Observed(observation: Observation) | Distributed(distribution: Distribution) | Summed(v: int)
}
