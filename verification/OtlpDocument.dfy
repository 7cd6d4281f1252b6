/** Whole runs through OTLP: any run exported, any document imported, and both together. */
module OtlpDocument {
  import opened Options
  import opened Otlp
  import opened OtlpResource
  import opened OtlpRun
  import opened OtlpSpans
  import S = Strings

  datatype Run = Run(runId: string, identity: Identity, fingerprint: Fingerprint, grade: Grade, verdict: Option<string>,
                     spans: seq<Span>, series: seq<Series>, probes: seq<Probe>)

  /** A resource with its attributes and its scopes, each holding spans or metrics. */
  datatype Resource<A> = Resource(attributes: Option<seq<Attr>>, scopes: seq<seq<A>>)

  datatype Document = Document(resourceSpans: seq<Resource<OtlpSpan>>, resourceMetrics: seq<Resource<Metric>>)

  function ScopesOf<A>(resources: seq<Resource<A>>): (scopes: seq<seq<seq<A>>>)
    ensures |scopes| == |resources| && forall i :: 0 <= i < |scopes| ==> scopes[i] == resources[i].scopes
  {
    seq(|resources|, i requires 0 <= i < |resources| => resources[i].scopes)
  }

  function RunIdOf(raw: seq<OtlpSpan>): string
  {
    if raw != [] && raw[0].traceId.Some? then raw[0].traceId.value else ""
  }

  function Exported(run: Run, ts: nat, hash: Hash): Document
    requires Sized(run.fingerprint)
  {
    var attrs := Attributes(run.fingerprint, run.identity, run.grade, run.verdict);
    Document([Resource(Some(attrs), [ExportedSpans(run.runId, run.spans, hash)])],
             [Resource(Some(attrs), [ExportedMetrics(run.series, run.probes, ts)])])
  }

  /** The attributes of the first resource with spans, or else of the first with metrics. */
  function ResourceAttrs(doc: Document): seq<Attr>
  {
    var attrs := if doc.resourceSpans != [] then doc.resourceSpans[0].attributes
                 else if doc.resourceMetrics != [] then doc.resourceMetrics[0].attributes
                 else None;
    if attrs.Some? then attrs.value else []
  }

  /** What any document imports as: probes and a verdict are never reconstructed, and the grade
      is always valid. */
  function Imported(doc: Document): Run
  {
    var raw, attrs := Flatten(ScopesOf(doc.resourceSpans)), ResourceAttrs(doc);
    Run(RunIdOf(raw), ReadIdentity(attrs), ReadFingerprint(attrs), Valid, None,
        ImportedSpans(raw), ImportedSeries(Flatten(ScopesOf(doc.resourceMetrics))), [])
  }

  method ExportAt(run: Run, ts: nat, hash: Hash) returns (doc: Document)
    requires Sized(run.fingerprint)
    ensures doc == Exported(run, ts, hash)
  {
    var attrs := Attributes(run.fingerprint, run.identity, run.grade, run.verdict);
    var spans := ExportSpans(run.runId, run.spans, hash);
    var metrics := ExportMetrics(run.series, run.probes, ts);
    doc := Document([Resource(Some(attrs), [spans])], [Resource(Some(attrs), [metrics])]);
  }

  method Import(doc: Document) returns (run: Run)
    ensures run == Imported(doc)
  {
    var attrs := ResourceAttrs(doc);
    var raw := RawSpans(ScopesOf(doc.resourceSpans));
    var spans := ImportSpans(raw);
    var series := ImportSeries(ScopesOf(doc.resourceMetrics));
    run := Run(RunIdOf(raw), ReadIdentity(attrs), ReadFingerprint(attrs), Valid, None, spans, series, []);
  }

  method RawSpans(resources: seq<seq<seq<OtlpSpan>>>) returns (raw: seq<OtlpSpan>)
    ensures raw == Flatten(resources)
  {
    raw := [];
    for r := 0 to |resources|
      invariant raw == Flatten(resources[..r])
    {
      FlattenOneMore(resources, r);
      raw := CollectSpans(raw, resources[r]);
    }
    assert resources[..|resources|] == resources;
  }

  method CollectSpans(before: seq<OtlpSpan>, scopes: seq<seq<OtlpSpan>>) returns (raw: seq<OtlpSpan>)
    ensures raw == before + Joined(scopes)
  {
    raw := before;
    for k := 0 to |scopes|
      invariant raw == before + Joined(scopes[..k])
    {
      FlatMapOneMore(scopes, k, Whole<OtlpSpan>);
      raw := raw + scopes[k];
    }
    assert scopes[..|scopes|] == scopes;
  }

  // ---- there and back --------------------------------------------------------------------------

  lemma FlattenOne<A>(attrs: Option<seq<Attr>>, xs: seq<A>)
    ensures Flatten(ScopesOf([Resource(attrs, [xs])])) == xs
  {
    assert ScopesOf([Resource(attrs, [xs])]) == [[xs]];
    FlatMapOne(xs, Whole<A>);
    FlatMapOne([xs], Joined<A>);
  }

  ghost predicate Importable(run: Run, hash: Hash)
  {
    && Sized(run.fingerprint)
    && S.Unique(SpanIds(run.runId, run.spans, hash))
    && forall i :: 0 <= i < |run.spans| ==> IsObject(AttrsOf(run.spans[i].attributes))
  }

  /** The run after export and import. */
  ghost function TripRun(run: Run, ts: nat): Run
  {
    Run(if run.spans == [] then "" else run.runId,
        run.identity.(params := "{}", source := "imported"),
        run.fingerprint.(extended := NOTHING_EXTENDED), Valid, None,
        TripSpans(run.spans), FlatMap(run.series, TripOne(ts)), [])
  }

  /** Importing an export gives back identity and core fingerprint, the tripped spans and series,
      the run id if there is a span to carry it, and neither probes nor a verdict. */
  lemma ImportOfExport(run: Run, ts: nat, hash: Hash)
    requires Importable(run, hash)
    ensures Imported(Exported(run, ts, hash)) == TripRun(run, ts)
  {
    var attrs := Attributes(run.fingerprint, run.identity, run.grade, run.verdict);
    FlattenOne(Some(attrs), ExportedSpans(run.runId, run.spans, hash));
    FlattenOne(Some(attrs), ExportedMetrics(run.series, run.probes, ts));
    SpansThereAndBack(run.runId, run.spans, hash);
    MetricsThereAndBack(run.series, run.probes, ts);
    FingerprintSurvives(run.fingerprint, run.identity, run.grade, run.verdict);
    IdentitySurvives(run.fingerprint, run.identity, run.grade, run.verdict);
  }

  /** A second export and import changes nothing exactly when no span attribute is an integer of
      2^63 or more. */
  lemma SecondRoundTripExactly(run: Run, ts: nat, again: nat, hash: Hash)
    requires Importable(run, hash)
    ensures Sized(Imported(Exported(run, ts, hash)).fingerprint)
    ensures var once := Imported(Exported(run, ts, hash));
            Imported(Exported(once, again, hash)) == once <==> NoHugeAttributes(run.spans)
  {
    ImportOfExport(run, ts, hash);
    OnceIsImportable(run, hash, ts);
    ImportOfExport(TripRun(run, ts), again, hash);
    TripsSettle(run.series, ts, again);
    SpansSettleExactly(run.spans);
  }

  lemma OnceIsImportable(run: Run, hash: Hash, ts: nat)
    requires Importable(run, hash)
    ensures Importable(TripRun(run, ts), hash)
  {
    var once := TripRun(run, ts);
    IdsKept(once.runId, run.spans, hash);
    forall i | 0 <= i < |run.spans| ensures IsObject(AttrsOf(once.spans[i].attributes)) {
      TripObject(AttrsOf(run.spans[i].attributes));
    }
  }

  lemma TripsSettle(series: seq<Series>, ts: nat, again: nat)
    ensures FlatMap(FlatMap(series, TripOne(ts)), TripOne(again)) == FlatMap(series, TripOne(ts))
  {
    SecondImportChangesNothing(series, [], ts, again);
    MetricsThereAndBack(series, [], ts);
    MetricsThereAndBack(FlatMap(series, TripOne(ts)), [], again);
  }
}
