/** OTLP export and import of series: the codec, what survives it, and that it is stable. */
module Otlp {
  import opened Decimal
  import opened Options
  import opened Powers

  // ---- numbers and their text --------------------------------------------------------------

  const I64_LIMIT: int := 0x8000_0000_0000_0000

  /** A JSON number: an integer literal or a floating one. */
  datatype Number = Int(n: int) | Float(x: real)

  /** A field that may hold a decimal string or a number. */
  datatype Field = Text(s: string) | Num(v: Number)

  function AsU64(v: Option<Number>): (r: Option<nat>)
    ensures r.Some? ==> r.value < U64
  {
    if v.Some? && v.value.Int? && 0 <= v.value.n < U64 then Some(v.value.n) else None
  }

  function AsI64(v: Number): Option<int>
  {
    if v.Int? && -I64_LIMIT <= v.n < I64_LIMIT then Some(v.n) else None
  }

  function AsF64(v: Option<Number>): Option<real>
  {
    match v
    case None => None
    case Some(Int(n)) => Some(n as real)
    case Some(Float(x)) => Some(x)
  }

  function OrZero(r: Option<nat>): nat
  {
    if r.Some? then r.value else 0
  }

  /** `u64_str`: absent or unfit numbers are written as zero. */
  function U64Str(v: Option<Number>): Field
  {
    Text(Render(OrZero(AsU64(v))))
  }

  /** `str_u64`: a string that does not parse, like anything else unfit, reads as zero. */
  function StrU64(f: Option<Field>): (n: nat)
    ensures n < U64
  {
    match f
    case None => 0
    case Some(Text(s)) => (match Parse(s, U64) case Some(n) => if n < U64 then n else 0 case None => 0)
    case Some(Num(v)) => OrZero(AsU64(Some(v)))
  }

  /** A signed 64-bit `parse`. */
  function ParseI64(s: string): Option<int>
  {
    if s != [] && s[0] == '-' then
      if |s| > 1 && AllDigits(s[1..]) && Decimal.Value(s[1..]) <= I64_LIMIT then
        var n: int := Decimal.Value(s[1..]);
        Some(-n)
      else None
    else
      match Parse(s, I64_LIMIT)
      case Some(n) => Some(n)
      case None => None
  }

  lemma U64Survives(v: Option<Number>)
    ensures StrU64(Some(U64Str(v))) == OrZero(AsU64(v))
  {
    RenderParses(OrZero(AsU64(v)), U64);
  }

  /** A bucket written as a signed integer reads back as itself, and as zero if negative. */
  lemma BucketSurvives(n: int)
    requires n < I64_LIMIT
    ensures StrU64(Some(Text(IntText(n)))) == if n < 0 then 0 else n
  {
    if n < 0 {
      var s := IntText(n);
      assert s[0] == '-' && !IsDigit(s[0]);
      assert Parse(s, U64) == None;
    } else {
      RenderParses(n, U64);
    }
  }

  /** An integer attribute survives exactly below 2^63. */
  lemma IntSurvives(n: int)
    requires -I64_LIMIT <= n
    ensures ParseI64(IntText(n)) == if n < I64_LIMIT then Some(n) else None
  {
    if n < 0 {
      var s := IntText(n);
      assert s[1..] == Render(-n);
      ValueOfRender(-n);
    } else {
      RenderParses(n, I64_LIMIT);
      assert IsDigit(Render(n)[0]);
    }
  }

  // ---- the two sides ----------------------------------------------------------------------------

  datatype Data = Data(layout: Option<string>, buckets: Option<seq<Number>>, bounds: Option<seq<Number>>,
                       count: Option<Number>, sum: Option<Number>, value: Option<Number>,
                       start: Option<Number>, time: Option<Number>)

  const NO_DATA: Data := Data(None, None, None, None, None, None, None, None)

  /** What a captured series declares about its keys: singleton, or bounded from some source. */
  datatype Cardinality = Singleton | Bounded(keySource: string, maxKeys: nat)

  /** A series of the contract; a field that is absent or of another JSON type is `None`. */
  datatype Series = Series(name: Option<string>, unit: Option<string>, kind: Option<string>, source: Option<string>,
                           key: Option<string>, labels: map<string, string>, overflow: Option<bool>,
                           cardinality: Option<Cardinality>, data: Option<Data>)

  datatype AnyValue = AnyValue(stringValue: Option<string>, boolValue: Option<bool>, doubleValue: Option<Number>,
                               intValue: Option<Field>)

  datatype Attr = Attr(key: Option<string>, value: Option<AnyValue>)

  /** Exponential buckets from the index `offset` on. */
  datatype Buckets = Buckets(offset: Option<int>, bucketCounts: Option<seq<Field>>)

  datatype Point = Point(attributes: Option<seq<Attr>>, time: Option<Field>, start: Option<Field>, count: Option<Field>,
                         sum: Option<Number>, scale: Option<int>, zeroCount: Option<Field>,
                         positive: Option<Buckets>, bucketCounts: Option<seq<Field>>,
                         explicitBounds: Option<seq<Number>>, asInt: Option<Field>, asDouble: Option<Number>)

  const NO_POINT: Point := Point(None, None, None, None, None, None, None, None, None, None, None, None)

  datatype Signal = Signal(monotonic: Option<bool>, temporality: Option<int>, points: Option<seq<Point>>)

  datatype Metric = Metric(name: Option<string>, unit: Option<string>, exponential: Option<Signal>,
                           histogram: Option<Signal>, sum: Option<Signal>, gauge: Option<Signal>)

  function StrAttr(key: string, s: string): Attr
  {
    Attr(Some(key), Some(AnyValue(Some(s), None, None, None)))
  }

  /** `attr_val`: the value of the first attribute with this key. */
  function AttrVal(attrs: seq<Attr>, key: string): Option<AnyValue>
  {
    if attrs == [] then None
    else if attrs[0].key == Some(key) then attrs[0].value
    else AttrVal(attrs[1..], key)
  }

  function AttrStr(attrs: seq<Attr>, key: string): Option<string>
  {
    match AttrVal(attrs, key)
    case Some(v) => v.stringValue
    case None => None
  }

  const SOURCE := "assayist.source"
  const KEY := "assayist.key"
  const PROBE := "assayist.probe."

  function PointAttrs(s: Series): seq<Attr>
  {
    (if s.source.Some? then [StrAttr(SOURCE, s.source.value)] else [])
    + (if s.key.Some? then [StrAttr(KEY, s.key.value)] else [])
  }

  // ---- export -----------------------------------------------------------------------------------

  /** The entries that fit a signed 64-bit integer; the others are dropped. */
  function I64s(buckets: seq<Number>): (out: seq<int>)
    ensures forall i :: 0 <= i < |out| ==> -I64_LIMIT <= out[i] < I64_LIMIT
  {
    if buckets == [] then []
    else
      var r := AsI64(buckets[|buckets| - 1]);
      I64s(buckets[..|buckets| - 1]) + if r.Some? then [r.value] else []
  }

  function IntTexts(ns: seq<int>): (out: seq<Field>)
    ensures |out| == |ns| && forall i :: 0 <= i < |ns| ==> out[i] == Text(IntText(ns[i]))
  {
    seq(|ns|, i requires 0 <= i < |ns| => Text(IntText(ns[i])))
  }

  function Floats(bounds: seq<Number>): (out: seq<Number>)
    ensures |out| == |bounds| && forall i :: 0 <= i < |out| ==> out[i] == Float(AsF64(Some(bounds[i])).value)
  {
    seq(|bounds|, i requires 0 <= i < |bounds| => Float(AsF64(Some(bounds[i])).value))
  }

  function FloatOf(v: Option<Number>): Option<Number>
  {
    match AsF64(v)
    case Some(x) => Some(Float(x))
    case None => None
  }

  function FloatOrZero(v: Option<Number>): Number
  {
    match AsF64(v)
    case Some(x) => Float(x)
    case None => Float(0.0)
  }

  function Listed(v: Option<seq<Number>>): seq<Number>
  {
    if v.Some? then v.value else []
  }

  function Layout(d: Data): string
  {
    if d.layout.Some? then d.layout.value else "log2"
  }

  function CumulativeSignal(p: Point): Signal
  {
    Signal(None, Some(2), Some([p]))
  }

  /** `histogram_body`, as the metric fields it fills: exponential for log2, explicit bounds
      otherwise, nothing for a layout it does not know. */
  function HistogramBody(d: Data, attrs: seq<Attr>, ts: nat): Option<(Option<Signal>, Option<Signal>)>
  {
    var counts := IntTexts(I64s(Listed(d.buckets)));
    var p := NO_POINT.(attributes := Some(attrs), time := Some(Text(Render(ts))), count := Some(U64Str(d.count)),
                       sum := FloatOf(d.sum));
    if Layout(d) == "log2" then
      Some((Some(CumulativeSignal(p.(scale := Some(0), zeroCount := Some(Text("0")),
                                     positive := Some(Buckets(Some(0), Some(counts)))))), None))
    else if Layout(d) == "explicit" then
      Some((None, Some(CumulativeSignal(p.(explicitBounds := Some(Floats(Listed(d.bounds))),
                                           bucketCounts := Some(counts))))))
    else None
  }

  function CounterPoint(d: Data, attrs: seq<Attr>): Point
  {
    NO_POINT.(attributes := Some(attrs), asInt := Some(U64Str(d.value)), start := Some(U64Str(d.start)),
              time := Some(U64Str(d.start)))
  }

  function GaugePoint(d: Data, attrs: seq<Attr>): Point
  {
    NO_POINT.(attributes := Some(attrs), asDouble := Some(FloatOrZero(d.value)), time := Some(U64Str(d.time)))
  }

  function SeriesToMetric(s: Series, ts: nat): Option<Metric>
  {
    if s.name.None? || s.kind.None? || s.data.None? then None
    else
      var d, attrs := s.data.value, PointAttrs(s);
      var m := Metric(s.name, Some(if s.unit.Some? then s.unit.value else ""), None, None, None, None);
      if s.kind.value == "histogram" then
        (match HistogramBody(d, attrs, ts)
         case Some((e, h)) => Some(m.(exponential := e, histogram := h))
         case None => None)
      else if s.kind.value == "counter" then
        Some(m.(sum := Some(Signal(Some(true), Some(2), Some([CounterPoint(d, attrs)])))))
      else if s.kind.value == "gauge" then
        Some(m.(gauge := Some(Signal(None, None, Some([GaugePoint(d, attrs)])))))
      else None
  }

  // ---- import -----------------------------------------------------------------------------------

  function FirstPoint(g: Signal): Option<Point>
  {
    if g.points.Some? && g.points.value != [] then Some(g.points.value[0]) else None
  }

  function StrU64s(fs: Option<seq<Field>>): (out: seq<Number>)
    ensures |out| == if fs.Some? then |fs.value| else 0
    ensures forall i :: 0 <= i < |out| ==> out[i] == Int(StrU64(Some(fs.value[i])))
  {
    if fs.None? then [] else seq(|fs.value|, i requires 0 <= i < |fs.value| => Int(StrU64(Some(fs.value[i]))))
  }

  function PositiveCounts(p: Point): Option<seq<Field>>
  {
    if p.positive.Some? then p.positive.value.bucketCounts else None
  }

  function U64Of(f: Option<Field>): Option<Number>
  {
    Some(Int(StrU64(f)))
  }

  /** The series with the given kind and data, and the source and key its point carries. */
  function Carried(m: Metric, kind: string, p: Point, d: Data): Series
  {
    var attrs := if p.attributes.Some? then p.attributes.value else [];
    Series(m.name, Some(if m.unit.Some? then m.unit.value else ""), Some(kind),
           AttrStr(attrs, SOURCE), AttrStr(attrs, KEY), map[], None, None, Some(d))
  }

  function MetricToSeries(m: Metric): Option<Series>
  {
    if m.name.None? then None
    else if m.exponential.Some? then
      match FirstPoint(m.exponential.value)
      case None => None
      case Some(p) =>
        Some(Carried(m, "histogram", p,
                     NO_DATA.(layout := Some("log2"), buckets := Some(StrU64s(PositiveCounts(p))),
                              count := U64Of(p.count), sum := FloatOf(p.sum))))
    else if m.histogram.Some? then
      match FirstPoint(m.histogram.value)
      case None => None
      case Some(p) =>
        Some(Carried(m, "histogram", p,
                     NO_DATA.(layout := Some("explicit"), buckets := Some(StrU64s(p.bucketCounts)),
                              bounds := Some(Listed(p.explicitBounds)), count := U64Of(p.count),
                              sum := FloatOf(p.sum))))
    else if m.sum.Some? then
      match FirstPoint(m.sum.value)
      case None => None
      case Some(p) => Some(Carried(m, "counter", p, NO_DATA.(value := U64Of(p.asInt), start := U64Of(p.time))))
    else if m.gauge.Some? then
      match FirstPoint(m.gauge.value)
      case None => None
      case Some(p) => Some(Carried(m, "gauge", p, NO_DATA.(value := Some(FloatOrZero(p.asDouble)),
                                                           time := U64Of(p.time))))
    else None
  }

  // ---- one series there and back ------------------------------------------------------------------

  /** A series through export and import. */
  function Trip(s: Series, ts: nat): Option<Series>
  {
    match SeriesToMetric(s, ts)
    case Some(m) => MetricToSeries(m)
    case None => None
  }

  /** What export accepts: a named series with data of a known kind and layout. */
  predicate Exportable(s: Series)
  {
    && s.name.Some? && s.data.Some?
    && (|| (s.kind == Some("histogram") && Layout(s.data.value) in ["log2", "explicit"])
        || s.kind == Some("counter")
        || s.kind == Some("gauge"))
  }

  predicate IsU64(v: Option<Number>)
  {
    v.Some? && v.value.Int? && 0 <= v.value.n < U64
  }

  predicate AllFloats(v: seq<Number>)
  {
    forall i :: 0 <= i < |v| ==> v[i].Float?
  }

  predicate AllSmallCounts(v: seq<Number>)
  {
    forall i :: 0 <= i < |v| ==> v[i].Int? && 0 <= v[i].n < I64_LIMIT
  }

  /** Data of the shape its kind calls for: counts that fit, numeric sums, bounds and values, and
      no field of another kind. */
  predicate ProperData(kind: string, d: Data)
  {
    if kind == "histogram" then
      && d.buckets.Some? && AllSmallCounts(d.buckets.value)
      && IsU64(d.count)
      && (if d.layout == Some("log2") then d.bounds.None? else d.layout == Some("explicit") && d.bounds.Some?)
      && d.value.None? && d.start.None? && d.time.None?
    else if kind == "counter" then
      IsU64(d.value) && IsU64(d.start) && d == NO_DATA.(value := d.value, start := d.start)
    else
      d.value.Some? && IsU64(d.time) && d == NO_DATA.(value := d.value, time := d.time)
  }

  /** Sums, bounds and gauge values written as floating-point numbers. */
  predicate Floating(kind: string, d: Data)
  {
    && (d.sum.Some? ==> d.sum.value.Float?)
    && (d.bounds.Some? ==> AllFloats(d.bounds.value))
    && (kind == "gauge" && d.value.Some? ==> d.value.value.Float?)
  }

  /** A series as the capture programs emit it, whatever it declares besides. */
  predicate Captured(s: Series)
  {
    && s.name.Some? && s.unit.Some?
    && s.kind.Some? && s.kind.value in ["histogram", "counter", "gauge"]
    && s.data.Some? && ProperData(s.kind.value, s.data.value)
  }

  /** A captured series without integers where OTLP has doubles, and without the fields that
      OTLP does not carry. */
  predicate WellFormed(s: Series)
  {
    && Captured(s) && Floating(s.kind.value, s.data.value)
    && s.labels == map[] && s.overflow.None? && s.cardinality.None?
  }

  /** The same number, whether written as an integer or not. */
  predicate SameNumber(a: Option<Number>, b: Option<Number>)
  {
    AsF64(a) == AsF64(b)
  }

  predicate SameNumbers(a: Option<seq<Number>>, b: Option<seq<Number>>)
  {
    && a.Some? == b.Some?
    && (a.Some? ==> |a.value| == |b.value|
                    && forall i :: 0 <= i < |a.value| ==> SameNumber(Some(a.value[i]), Some(b.value[i])))
  }

  /** The same data: counts and times as they stand, sums, bounds and gauge values as numbers. */
  predicate SameData(kind: string, d: Data, e: Data)
  {
    && d.layout == e.layout && d.buckets == e.buckets && d.count == e.count
    && d.start == e.start && d.time == e.time
    && SameNumbers(d.bounds, e.bounds) && SameNumber(d.sum, e.sum)
    && (if kind == "gauge" then SameNumber(d.value, e.value) else d.value == e.value)
  }

  /** The same name, unit, kind, source, key and data. */
  predicate SameMeasurement(s: Series, t: Series)
  {
    && s.name == t.name && s.unit == t.unit && s.kind == t.kind && s.source == t.source && s.key == t.key
    && match (s.data, t.data)
       case (Some(d), Some(e)) => SameData(if s.kind.Some? then s.kind.value else "", d, e)
       case (None, None) => true
       case _ => false
  }

  /** The data after export and import. */
  function TripData(kind: string, d: Data): Data
  {
    if kind == "histogram" then
      var shared := NO_DATA.(buckets := Some(TripBuckets(Listed(d.buckets))),
                             count := Some(Int(OrZero(AsU64(d.count)))),
                             sum := FloatOf(d.sum));
      if Layout(d) == "log2" then shared.(layout := Some("log2"))
      else shared.(layout := Some("explicit"), bounds := Some(Floats(Listed(d.bounds))))
    else if kind == "counter" then
      NO_DATA.(value := Some(Int(OrZero(AsU64(d.value)))), start := Some(Int(OrZero(AsU64(d.start)))))
    else
      NO_DATA.(value := Some(FloatOrZero(d.value)), time := Some(Int(OrZero(AsU64(d.time)))))
  }

  /** Buckets after export and import: those of 2^63 or more are gone, negative ones zero. */
  function TripBuckets(buckets: seq<Number>): (out: seq<Number>)
    ensures |out| == |I64s(buckets)|
    ensures forall i :: 0 <= i < |out| ==> out[i] == Int(if I64s(buckets)[i] < 0 then 0 else I64s(buckets)[i])
  {
    var ns := I64s(buckets);
    seq(|ns|, i requires 0 <= i < |ns| => Int(if ns[i] < 0 then 0 else ns[i]))
  }

  lemma BucketsTrip(buckets: seq<Number>)
    ensures StrU64s(Some(IntTexts(I64s(buckets)))) == TripBuckets(buckets)
  {
    var ns := I64s(buckets);
    forall i | 0 <= i < |ns| ensures StrU64s(Some(IntTexts(ns)))[i] == TripBuckets(buckets)[i] {
      BucketSurvives(ns[i]);
    }
  }

  lemma AttrHead(a: Attr, rest: seq<Attr>, key: string)
    ensures AttrVal([a] + rest, key) == if a.key == Some(key) then a.value else AttrVal(rest, key)
  {
    assert ([a] + rest)[1..] == rest;
  }

  lemma AttrsTrip(s: Series)
    ensures AttrStr(PointAttrs(s), SOURCE) == s.source
    ensures AttrStr(PointAttrs(s), KEY) == s.key
  {
    assert |SOURCE| != |KEY|;
    var keyed := if s.key.Some? then [StrAttr(KEY, s.key.value)] else [];
    if s.key.Some? {
      assert keyed == [StrAttr(KEY, s.key.value)] + [];
      AttrHead(StrAttr(KEY, s.key.value), [], SOURCE);
      AttrHead(StrAttr(KEY, s.key.value), [], KEY);
    }
    if s.source.Some? {
      AttrHead(StrAttr(SOURCE, s.source.value), keyed, SOURCE);
      AttrHead(StrAttr(SOURCE, s.source.value), keyed, KEY);
    } else {
      assert PointAttrs(s) == keyed;
    }
  }

  /** The series with other data and without what OTLP does not carry. */
  function Bare(s: Series, d: Data): Series
  {
    s.(unit := Some(if s.unit.Some? then s.unit.value else ""), labels := map[], overflow := None,
       cardinality := None, data := Some(d))
  }

  lemma TripLog2(s: Series, ts: nat)
    requires Exportable(s) && s.kind == Some("histogram") && Layout(s.data.value) == "log2"
    ensures Trip(s, ts) == Some(Bare(s, TripData("histogram", s.data.value)))
  {
    hide AttrVal, PointAttrs, Render, Parse, I64s;
    AttrsTrip(s);
    BucketsTrip(Listed(s.data.value.buckets));
    U64Survives(s.data.value.count);
  }

  lemma TripExplicit(s: Series, ts: nat)
    requires Exportable(s) && s.kind == Some("histogram") && Layout(s.data.value) == "explicit"
    ensures Trip(s, ts) == Some(Bare(s, TripData("histogram", s.data.value)))
  {
    hide AttrVal, PointAttrs, Render, Parse, I64s;
    AttrsTrip(s);
    BucketsTrip(Listed(s.data.value.buckets));
    U64Survives(s.data.value.count);
  }

  lemma TripHistogram(s: Series, ts: nat)
    requires Exportable(s) && s.kind == Some("histogram")
    ensures Trip(s, ts) == Some(Bare(s, TripData("histogram", s.data.value)))
  {
    if Layout(s.data.value) == "log2" {
      TripLog2(s, ts);
    } else {
      TripExplicit(s, ts);
    }
  }

  lemma TripCounter(s: Series, ts: nat)
    requires Exportable(s) && s.kind == Some("counter")
    ensures Trip(s, ts) == Some(Bare(s, TripData("counter", s.data.value)))
  {
    hide AttrVal, PointAttrs, Render, Parse, I64s;
    var d := s.data.value;
    AttrsTrip(s);
    U64Survives(d.value);
    U64Survives(d.start);
  }

  lemma TripGauge(s: Series, ts: nat)
    requires Exportable(s) && s.kind == Some("gauge")
    ensures Trip(s, ts) == Some(Bare(s, TripData("gauge", s.data.value)))
  {
    hide AttrVal, PointAttrs, Render, Parse, I64s;
    AttrsTrip(s);
    U64Survives(s.data.value.time);
  }

  lemma NotExported(s: Series, ts: nat)
    ensures SeriesToMetric(s, ts).Some? <==> Exportable(s)
  {
  }

  /** Every exportable series comes back with its name, kind, source and key, its unit (empty
      if it had none), and its data as `TripData` says; labels, overflow and declared
      cardinality are lost. */
  lemma TripIs(s: Series, ts: nat)
    ensures Trip(s, ts) == if Exportable(s) then Some(Bare(s, TripData(s.kind.value, s.data.value))) else None
  {
    NotExported(s, ts);
    if Exportable(s) {
      if s.kind == Some("histogram") {
        TripHistogram(s, ts);
      } else if s.kind == Some("counter") {
        TripCounter(s, ts);
      } else {
        TripGauge(s, ts);
      }
    }
  }

  lemma {:induction false} SmallCountsStay(buckets: seq<Number>)
    ensures AllSmallCounts(buckets) ==> |I64s(buckets)| == |buckets|
    ensures AllSmallCounts(buckets) ==> forall i :: 0 <= i < |buckets| ==> Int(I64s(buckets)[i]) == buckets[i]
  {
    if buckets != [] {
      SmallCountsStay(buckets[..|buckets| - 1]);
    }
  }

  lemma BucketsKeptExactly(buckets: seq<Number>)
    ensures TripBuckets(buckets) == buckets <==> AllSmallCounts(buckets)
  {
    SmallCountsStay(buckets);
    var out := TripBuckets(buckets);
    assert AllSmallCounts(out);
    if AllSmallCounts(buckets) {
      assert forall i :: 0 <= i < |out| ==> out[i] == buckets[i];
    }
  }

  lemma FloatsKeptExactly(v: seq<Number>)
    ensures Floats(v) == v <==> AllFloats(v)
  {
    assert AllFloats(Floats(v));
    if AllFloats(v) {
      assert forall i :: 0 <= i < |v| ==> Floats(v)[i] == v[i];
    }
  }

  lemma DataKeptExactly(kind: string, d: Data)
    requires kind in ["histogram", "counter", "gauge"] && (kind == "histogram" ==> Layout(d) in ["log2", "explicit"])
    ensures TripData(kind, d) == d <==> ProperData(kind, d) && Floating(kind, d)
    ensures ProperData(kind, TripData(kind, d)) && Floating(kind, TripData(kind, d))
  {
    BucketsKeptExactly(Listed(d.buckets));
    FloatsKeptExactly(Listed(d.bounds));
    assert AllSmallCounts(TripBuckets(Listed(d.buckets)));
    assert AllFloats(Floats(Listed(d.bounds)));
  }

  lemma SameDataExactly(kind: string, d: Data)
    requires kind in ["histogram", "counter", "gauge"] && (kind == "histogram" ==> Layout(d) in ["log2", "explicit"])
    ensures SameData(kind, d, TripData(kind, d)) <==> ProperData(kind, d)
  {
    BucketsKeptExactly(Listed(d.buckets));
    assert SameNumber(d.sum, FloatOf(d.sum));
    assert SameNumbers(Some(Listed(d.bounds)), Some(Floats(Listed(d.bounds))));
  }

  /** Name, unit, kind, source, key and data survive exactly for the captured series. */
  lemma MeasurementSurvivesExactly(s: Series, ts: nat)
    ensures (Trip(s, ts).Some? && SameMeasurement(s, Trip(s, ts).value)) <==> Captured(s)
  {
    TripIs(s, ts);
    if Exportable(s) {
      SameDataExactly(s.kind.value, s.data.value);
    }
  }

  /** An integer gauge comes back as the same number, but no longer as an integer. */
  lemma IntegerGaugeFloats(s: Series, n: int, time: nat, ts: nat)
    requires s.name.Some? && s.unit.Some? && s.kind == Some("gauge") && time < U64
    requires s.data == Some(NO_DATA.(value := Some(Int(n)), time := Some(Int(time))))
    ensures Captured(s) && !WellFormed(s)
    ensures Trip(s, ts).Some? && SameMeasurement(s, Trip(s, ts).value)
    ensures Trip(s, ts).value.data == Some(NO_DATA.(value := Some(Float(n as real)), time := Some(Int(time))))
  {
    TripIs(s, ts);
  }

  /** A series survives export and import unchanged exactly when it is well formed. */
  lemma SurvivesExactly(s: Series, ts: nat)
    ensures Trip(s, ts) == Some(s) <==> WellFormed(s)
  {
    TripIs(s, ts);
    if Exportable(s) {
      DataKeptExactly(s.kind.value, s.data.value);
    }
  }

  /** Whatever comes back is well formed, so a second trip changes nothing. */
  lemma SecondTripChangesNothing(s: Series, ts: nat, again: nat)
    requires Exportable(s)
    ensures Trip(s, ts).Some? && WellFormed(Trip(s, ts).value)
    ensures Trip(Trip(s, ts).value, again) == Trip(s, ts)
  {
    TripIs(s, ts);
    DataKeptExactly(s.kind.value, s.data.value);
    SurvivesExactly(Trip(s, ts).value, again);
  }

  /** A bucket of 2^63 or more is dropped, shifting every later bucket down by one. */
  lemma HugeBucketShifts(front: seq<Number>, n: nat, back: seq<Number>)
    requires I64_LIMIT <= n
    ensures TripBuckets(front + [Int(n)] + back) == TripBuckets(front + back)
  {
    I64sConcat(front + [Int(n)], back);
    I64sConcat(front, [Int(n)]);
    I64sConcat(front, back);
    assert [Int(n)][..0] == [];
    assert I64s([Int(n)]) == [];
  }

  lemma {:induction false} I64sConcat(a: seq<Number>, b: seq<Number>)
    ensures I64s(a + b) == I64s(a) + I64s(b)
  {
    if b == [] {
      assert a + b == a;
    } else {
      I64sConcat(a, b[..|b| - 1]);
      assert (a + b)[..|a + b| - 1] == a + b[..|b| - 1];
    }
  }
}
