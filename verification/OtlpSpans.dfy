/** Spans through OTLP, and the whole document there and back. */
module OtlpSpans {
  import opened Decimal
  import opened Options
  import opened Otlp
  import S = Strings

  // ---- attributes -----------------------------------------------------------------------------

  /** A span attribute; arrays and objects are known by their JSON text. */
  datatype AttrValue = Str(s: string) | Flag(b: bool) | Numeric(v: Number) | Null | Compound(text: string)

  /** `any_kv`. */
  function AnyKv(k: string, v: AttrValue): Attr
  {
    Attr(Some(k), Some(
      match v
      case Str(s) => AnyValue(Some(s), None, None, None)
      case Flag(b) => AnyValue(None, Some(b), None, None)
      case Numeric(Float(x)) => AnyValue(None, None, Some(Float(x)), None)
      case Numeric(Int(n)) => AnyValue(None, None, None, Some(Text(IntText(n))))
      case Null => AnyValue(Some("null"), None, None, None)
      case Compound(text) => AnyValue(Some(text), None, None, None)))
  }

  /** The plain value of an attribute on import. */
  function Plain(value: Option<AnyValue>): AttrValue
  {
    if value.None? then Null
    else
      var v := value.value;
      if v.stringValue.Some? then Str(v.stringValue.value)
      else if v.boolValue.Some? then Flag(v.boolValue.value)
      else if v.doubleValue.Some? then Numeric(FloatOrZero(v.doubleValue))
      else
        match v.intValue
        case Some(Text(s)) => (match ParseI64(s) case Some(n) => Numeric(Int(n)) case None => Null)
        case _ => Null
  }

  type Members = seq<(string, AttrValue)>

  /** Insertion into an object kept in key order; an existing key gets the new value. */
  function Put(ms: Members, k: string, v: AttrValue): Members
  {
    if ms == [] || S.Before(k, ms[0].0) then [(k, v)] + ms
    else if ms[0].0 == k then [(k, v)] + ms[1..]
    else [ms[0]] + Put(ms[1..], k, v)
  }

  function Collected(attrs: seq<Attr>): Members
  {
    if attrs == [] then []
    else
      var before, a := Collected(attrs[..|attrs| - 1]), attrs[|attrs| - 1];
      if a.key.None? then before else Put(before, a.key.value, Plain(a.value))
  }

  method KvListToObject(attrs: Option<seq<Attr>>) returns (ms: Members)
    ensures ms == Collected(if attrs.Some? then attrs.value else [])
  {
    ms := [];
    if attrs.None? {
      return;
    }
    var list := attrs.value;
    for i := 0 to |list|
      invariant ms == Collected(list[..i])
    {
      assert list[..i + 1][..i] == list[..i];
      if list[i].key.Some? {
        ms := Put(ms, list[i].key.value, Plain(list[i].value));
      }
    }
    assert list[..|list|] == list;
  }

  function KvList(ms: Members): (attrs: seq<Attr>)
    ensures |attrs| == |ms| && forall i :: 0 <= i < |ms| ==> attrs[i] == AnyKv(ms[i].0, ms[i].1)
  {
    seq(|ms|, i requires 0 <= i < |ms| => AnyKv(ms[i].0, ms[i].1))
  }

  function TripAttr(v: AttrValue): AttrValue
  {
    match v
    case Numeric(Int(n)) => if n < I64_LIMIT then v else Null
    case Null => Str("null")
    case Compound(text) => Str(text)
    case _ => v
  }

  function TripMembers(ms: Members): (out: Members)
    ensures |out| == |ms| && forall i :: 0 <= i < |ms| ==> out[i] == (ms[i].0, TripAttr(ms[i].1))
  {
    seq(|ms|, i requires 0 <= i < |ms| => (ms[i].0, TripAttr(ms[i].1)))
  }

  /** What any JSON object is: keys in order, and integers a JSON number can hold. */
  ghost predicate IsObject(ms: Members)
  {
    && (forall i, j :: 0 <= i < j < |ms| ==> S.Before(ms[i].0, ms[j].0))
    && (forall i :: 0 <= i < |ms| && ms[i].1.Numeric? && ms[i].1.v.Int? ==> -I64_LIMIT <= ms[i].1.v.n)
  }

  lemma AttrTrips(k: string, v: AttrValue)
    requires v.Numeric? && v.v.Int? ==> -I64_LIMIT <= v.v.n
    ensures Plain(AnyKv(k, v).value) == TripAttr(v)
  {
    if v.Numeric? && v.v.Int? {
      IntSurvives(v.v.n);
    }
  }

  lemma {:induction false} PutLast(ms: Members, k: string, v: AttrValue)
    requires forall i :: 0 <= i < |ms| ==> S.Before(ms[i].0, k)
    ensures Put(ms, k, v) == ms + [(k, v)]
  {
    if ms != [] {
      if S.Before(k, ms[0].0) {
        S.BeforeTransitive(k, ms[0].0, k);
      }
      S.BeforeIrreflexive(k);
      PutLast(ms[1..], k, v);
    }
  }

  lemma ObjectFront(ms: Members)
    requires IsObject(ms) && ms != []
    ensures var n := |ms| - 1;
            && IsObject(ms[..n])
            && (forall i :: 0 <= i < n ==> S.Before(TripMembers(ms[..n])[i].0, ms[n].0))
            && (ms[n].1.Numeric? && ms[n].1.v.Int? ==> -I64_LIMIT <= ms[n].1.v.n)
  {
    var n := |ms| - 1;
    assert forall i :: 0 <= i < n ==> ms[..n][i] == ms[i];
  }

  lemma {:induction false} MembersTrip(ms: Members)
    requires IsObject(ms)
    ensures Collected(KvList(ms)) == TripMembers(ms)
  {
    if ms != [] {
      var n := |ms| - 1;
      ObjectFront(ms);
      MembersTrip(ms[..n]);
      CollectedOneMore(ms, n);
      AttrTrips(ms[n].0, ms[n].1);
      PutLast(TripMembers(ms[..n]), ms[n].0, TripAttr(ms[n].1));
      TripOneMore(ms, n);
    }
  }

  lemma TripOneMore(ms: Members, n: nat)
    requires |ms| == n + 1
    ensures TripMembers(ms) == TripMembers(ms[..n]) + [(ms[n].0, TripAttr(ms[n].1))]
  {
  }

  lemma CollectedOneMore(ms: Members, n: nat)
    requires |ms| == n + 1
    ensures Collected(KvList(ms)) == Put(Collected(KvList(ms[..n])), ms[n].0, Plain(AnyKv(ms[n].0, ms[n].1).value))
  {
    assert KvList(ms)[..n] == KvList(ms[..n]);
  }

  // ---- spans ------------------------------------------------------------------------------------

  datatype Span = Span(name: Option<string>, start: Option<Number>, end: Option<Number>, parent: Option<string>,
                       attributes: Option<Members>)

  datatype OtlpSpan = OtlpSpan(traceId: Option<string>, spanId: Option<string>, parentSpanId: Option<string>,
                               name: Option<string>, start: Option<Field>, end: Option<Field>,
                               attributes: Option<seq<Attr>>)

  /** The digest behind a span id, of run id, name and index. */
  type Hash = (string, string, nat) -> string

  function NameOf(s: Span): string
  {
    if s.name.Some? then s.name.value else ""
  }

  function SpanIds(runId: string, spans: seq<Span>, hash: Hash): (ids: seq<string>)
    ensures |ids| == |spans| && forall i :: 0 <= i < |ids| ==> ids[i] == hash(runId, NameOf(spans[i]), i)
  {
    seq(|spans|, i requires 0 <= i < |spans| => hash(runId, NameOf(spans[i]), i))
  }

  /** The id of the first span of each name. */
  function IdByName(spans: seq<Span>, ids: seq<string>): map<string, string>
    requires |ids| == |spans|
  {
    if spans == [] then map[]
    else
      var n := |spans| - 1;
      var before := IdByName(spans[..n], ids[..n]);
      if NameOf(spans[n]) in before then before else before[NameOf(spans[n]) := ids[n]]
  }

  function AttrsOf(attributes: Option<Members>): Members
  {
    if attributes.Some? then attributes.value else []
  }

  function ExportSpan(runId: string, s: Span, id: string, idByName: map<string, string>): OtlpSpan
  {
    OtlpSpan(Some(runId), Some(id),
             if s.parent.Some? && s.parent.value in idByName then Some(idByName[s.parent.value]) else None,
             Some(NameOf(s)), Some(U64Str(s.start)), Some(U64Str(s.end)), Some(KvList(AttrsOf(s.attributes))))
  }

  function ExportedSpans(runId: string, spans: seq<Span>, hash: Hash): (out: seq<OtlpSpan>)
    ensures |out| == |spans|
    ensures var ids := SpanIds(runId, spans, hash);
            forall i :: 0 <= i < |out| ==> out[i] == ExportSpan(runId, spans[i], ids[i], IdByName(spans, ids))
  {
    var ids := SpanIds(runId, spans, hash);
    seq(|spans|, i requires 0 <= i < |spans| => ExportSpan(runId, spans[i], ids[i], IdByName(spans, ids)))
  }

  /** The first pass: an id per span, and the first id of each name. */
  method AssignIds(runId: string, spans: seq<Span>, hash: Hash)
      returns (ids: seq<string>, idByName: map<string, string>)
    ensures ids == SpanIds(runId, spans, hash) && idByName == IdByName(spans, ids)
  {
    ids, idByName := [], map[];
    ghost var all := SpanIds(runId, spans, hash);
    for i := 0 to |spans|
      invariant ids == all[..i]
      invariant idByName == IdByName(spans[..i], all[..i])
    {
      var name := NameOf(spans[i]);
      var id := hash(runId, name, i);
      IdByNameOneMore(spans, all, i);
      if name !in idByName {
        idByName := idByName[name := id];
      }
      ids := ids + [id];
    }
    assert spans[..|spans|] == spans && all[..|spans|] == all;
  }

  lemma IdByNameOneMore(spans: seq<Span>, ids: seq<string>, i: nat)
    requires i < |spans| == |ids|
    ensures var before := IdByName(spans[..i], ids[..i]);
            IdByName(spans[..i + 1], ids[..i + 1])
            == if NameOf(spans[i]) in before then before else before[NameOf(spans[i]) := ids[i]]
  {
    assert spans[..i + 1][..i] == spans[..i] && ids[..i + 1][..i] == ids[..i];
  }

  /** `spans`: the ids first, indexed by name, then the spans. */
  method ExportSpans(runId: string, spans: seq<Span>, hash: Hash) returns (out: seq<OtlpSpan>)
    ensures out == ExportedSpans(runId, spans, hash)
  {
    var ids, idByName := AssignIds(runId, spans, hash);
    out := [];
    for i := 0 to |spans|
      invariant out == ExportedSpans(runId, spans, hash)[..i]
    {
      out := out + [ExportSpan(runId, spans[i], ids[i], idByName)];
    }
  }

  /** The name of the last span of each id. */
  function NameById(raw: seq<OtlpSpan>): map<string, string>
  {
    if raw == [] then map[]
    else
      var before, s := NameById(raw[..|raw| - 1]), raw[|raw| - 1];
      if s.spanId.Some? && s.name.Some? then before[s.spanId.value := s.name.value] else before
  }

  function ImportSpan(s: OtlpSpan, names: map<string, string>, ms: Members): Span
  {
    Span(s.name, U64Of(s.start), U64Of(s.end),
         if s.parentSpanId.Some? && s.parentSpanId.value in names then Some(names[s.parentSpanId.value]) else None,
         if ms == [] then None else Some(ms))
  }

  function ImportedSpan(s: OtlpSpan, names: map<string, string>): Span
  {
    ImportSpan(s, names, Collected(if s.attributes.Some? then s.attributes.value else []))
  }

  function ImportedSpans(raw: seq<OtlpSpan>): (out: seq<Span>)
    ensures |out| == |raw| && forall i :: 0 <= i < |out| ==> out[i] == ImportedSpan(raw[i], NameById(raw))
  {
    seq(|raw|, i requires 0 <= i < |raw| => ImportedSpan(raw[i], NameById(raw)))
  }

  /** `import_spans`, on the collected raw spans. */
  method ImportSpans(raw: seq<OtlpSpan>) returns (out: seq<Span>)
    ensures out == ImportedSpans(raw)
  {
    var names: map<string, string> := map[];
    for i := 0 to |raw|
      invariant names == NameById(raw[..i])
    {
      assert raw[..i + 1][..i] == raw[..i];
      if raw[i].spanId.Some? && raw[i].name.Some? {
        names := names[raw[i].spanId.value := raw[i].name.value];
      }
    }
    assert raw[..|raw|] == raw;
    out := [];
    for i := 0 to |raw|
      invariant out == ImportedSpans(raw)[..i]
    {
      var ms := KvListToObject(raw[i].attributes);
      out := out + [ImportSpan(raw[i], names, ms)];
    }
  }

  // ---- spans there and back --------------------------------------------------------------------------

  ghost predicate Named(spans: seq<Span>, name: string)
  {
    exists j :: 0 <= j < |spans| && NameOf(spans[j]) == name
  }

  /** The span after export and import: a parent survives if some span has its name. */
  ghost function TripSpan(spans: seq<Span>, s: Span): Span
  {
    var ms := TripMembers(AttrsOf(s.attributes));
    Span(Some(NameOf(s)), Some(Int(OrZero(AsU64(s.start)))), Some(Int(OrZero(AsU64(s.end)))),
         if s.parent.Some? && Named(spans, s.parent.value) then s.parent else None,
         if ms == [] then None else Some(ms))
  }

  ghost function TripSpans(spans: seq<Span>): (out: seq<Span>)
    ensures |out| == |spans| && forall i :: 0 <= i < |out| ==> out[i] == TripSpan(spans, spans[i])
  {
    seq(|spans|, i requires 0 <= i < |spans| => TripSpan(spans, spans[i]))
  }

  lemma {:induction false} FirstOfName(spans: seq<Span>, ids: seq<string>, name: string)
    requires |ids| == |spans|
    ensures name in IdByName(spans, ids) <==> Named(spans, name)
    ensures name in IdByName(spans, ids) ==>
              exists j :: 0 <= j < |spans| && NameOf(spans[j]) == name && IdByName(spans, ids)[name] == ids[j]
  {
    if spans != [] {
      var n := |spans| - 1;
      FirstOfName(spans[..n], ids[..n], name);
      assert forall j :: 0 <= j < n ==> spans[..n][j] == spans[j] && ids[..n][j] == ids[j];
      if Named(spans, name) && NameOf(spans[n]) != name {
        var j :| 0 <= j < |spans| && NameOf(spans[j]) == name;
        assert NameOf(spans[..n][j]) == name;
      }
      if Named(spans[..n], name) {
        var j :| 0 <= j < n && NameOf(spans[..n][j]) == name && IdByName(spans[..n], ids[..n])[name] == ids[..n][j];
        assert NameOf(spans[j]) == name && IdByName(spans, ids)[name] == ids[j];
      } else if NameOf(spans[n]) == name {
        assert IdByName(spans, ids)[name] == ids[n];
      }
    }
  }

  lemma {:induction false} NameOfId(raw: seq<OtlpSpan>, j: nat)
    requires j < |raw| && forall i :: 0 <= i < |raw| ==> raw[i].spanId.Some? && raw[i].name.Some?
    requires forall i, k :: 0 <= i < k < |raw| ==> raw[i].spanId.value != raw[k].spanId.value
    ensures raw[j].spanId.value in NameById(raw) && NameById(raw)[raw[j].spanId.value] == raw[j].name.value
  {
    var n := |raw| - 1;
    if j < n {
      NameOfId(raw[..n], j);
    }
  }

  lemma ParentTrips(runId: string, spans: seq<Span>, hash: Hash, i: nat)
    requires i < |spans| && S.Unique(SpanIds(runId, spans, hash))
    ensures var raw := ExportedSpans(runId, spans, hash);
            ImportedSpan(raw[i], NameById(raw)).parent == TripSpan(spans, spans[i]).parent
  {
    var ids, raw, s := SpanIds(runId, spans, hash), ExportedSpans(runId, spans, hash), spans[i];
    if s.parent.Some? {
      FirstOfName(spans, ids, s.parent.value);
      if Named(spans, s.parent.value) {
        var j :| 0 <= j < |spans| && NameOf(spans[j]) == s.parent.value
                  && IdByName(spans, ids)[s.parent.value] == ids[j];
        NameOfId(raw, j);
      }
    }
  }

  /** With injective span ids every span comes back as `TripSpan` says. */
  lemma SpansThereAndBack(runId: string, spans: seq<Span>, hash: Hash)
    requires S.Unique(SpanIds(runId, spans, hash))
    requires forall i :: 0 <= i < |spans| ==> IsObject(AttrsOf(spans[i].attributes))
    ensures ImportedSpans(ExportedSpans(runId, spans, hash)) == TripSpans(spans)
  {
    var raw := ExportedSpans(runId, spans, hash);
    forall i | 0 <= i < |spans| ensures ImportedSpans(raw)[i] == TripSpans(spans)[i] {
      ParentTrips(runId, spans, hash, i);
      MembersTrip(AttrsOf(spans[i].attributes));
      U64Survives(spans[i].start);
      U64Survives(spans[i].end);
    }
  }

  // ---- what survives, exactly -------------------------------------------------------------------------

  /** Scalars: strings, booleans, floating numbers and integers below 2^63. */
  predicate IsScalar(v: AttrValue)
  {
    v.Str? || v.Flag? || (v.Numeric? && (v.v.Float? || v.v.n < I64_LIMIT))
  }

  predicate IsHuge(v: AttrValue)
  {
    v.Numeric? && v.v.Int? && v.v.n >= I64_LIMIT
  }

  /** Named, timed, with scalar attributes if any, and a parent only if some span has its name. */
  ghost predicate ProperSpan(spans: seq<Span>, s: Span)
  {
    && s.name.Some? && IsU64(s.start) && IsU64(s.end)
    && (s.parent.Some? ==> Named(spans, s.parent.value))
    && (s.attributes.Some? ==> s.attributes.value != [])
    && forall i :: 0 <= i < |AttrsOf(s.attributes)| ==> IsScalar(AttrsOf(s.attributes)[i].1)
  }

  lemma MembersKeptExactly(ms: Members)
    ensures TripMembers(ms) == ms <==> forall i :: 0 <= i < |ms| ==> IsScalar(ms[i].1)
  {
    var out := TripMembers(ms);
    forall i | 0 <= i < |ms| ensures out[i] == ms[i] <==> IsScalar(ms[i].1) {
      assert out[i] == (ms[i].0, TripAttr(ms[i].1));
    }
    if out == ms {
      assert forall i :: 0 <= i < |ms| ==> out[i] == ms[i];
    }
  }

  lemma SpanKeptExactly(spans: seq<Span>, s: Span)
    ensures TripSpan(spans, s) == s <==> ProperSpan(spans, s)
  {
    MembersKeptExactly(AttrsOf(s.attributes));
  }

  /** The spans survive export and import unchanged exactly when all are proper. */
  lemma SpansSurviveExactly(runId: string, spans: seq<Span>, hash: Hash)
    requires S.Unique(SpanIds(runId, spans, hash))
    requires forall i :: 0 <= i < |spans| ==> IsObject(AttrsOf(spans[i].attributes))
    ensures ImportedSpans(ExportedSpans(runId, spans, hash)) == spans
       <==> forall i :: 0 <= i < |spans| ==> ProperSpan(spans, spans[i])
  {
    SpansThereAndBack(runId, spans, hash);
    var out := TripSpans(spans);
    forall i | 0 <= i < |spans| ensures out[i] == spans[i] <==> ProperSpan(spans, spans[i]) {
      SpanKeptExactly(spans, spans[i]);
    }
    if out == spans {
      assert forall i :: 0 <= i < |spans| ==> out[i] == spans[i];
    }
  }

  lemma NamesKept(spans: seq<Span>, name: string)
    ensures Named(TripSpans(spans), name) <==> Named(spans, name)
  {
    var out := TripSpans(spans);
    if j :| 0 <= j < |spans| && NameOf(spans[j]) == name {
      assert NameOf(out[j]) == name;
    }
    if j :| 0 <= j < |out| && NameOf(out[j]) == name {
      assert NameOf(spans[j]) == name;
    }
  }

  lemma IdsKept(runId: string, spans: seq<Span>, hash: Hash)
    ensures SpanIds(runId, TripSpans(spans), hash) == SpanIds(runId, spans, hash)
  {
  }

  lemma TripObject(ms: Members)
    requires IsObject(ms)
    ensures IsObject(TripMembers(ms))
  {
  }

  /** A span is stable after the first trip exactly when no attribute is an integer of 2^63 or
      more: that one becomes null, and null becomes the string "null" on the next trip. */
  lemma SpanSettlesExactly(spans: seq<Span>, s: Span)
    requires s in spans
    ensures TripSpan(TripSpans(spans), TripSpan(spans, s)) == TripSpan(spans, s)
       <==> forall i :: 0 <= i < |AttrsOf(s.attributes)| ==> !IsHuge(AttrsOf(s.attributes)[i].1)
  {
    var once, ms := TripSpan(spans, s), AttrsOf(s.attributes);
    var out := TripMembers(ms);
    if s.parent.Some? {
      NamesKept(spans, s.parent.value);
    }
    SpanKeptExactly(TripSpans(spans), once);
    assert AttrsOf(once.attributes) == out;
    forall i | 0 <= i < |ms| ensures IsScalar(out[i].1) <==> !IsHuge(ms[i].1) {
      assert out[i].1 == TripAttr(ms[i].1);
    }
  }

  ghost predicate NoHugeAttributes(spans: seq<Span>)
  {
    forall k :: 0 <= k < |spans| ==> NoHuge(AttrsOf(spans[k].attributes))
  }

  predicate NoHuge(ms: Members)
  {
    forall i :: 0 <= i < |ms| ==> !IsHuge(ms[i].1)
  }

  lemma SpansSettleExactly(spans: seq<Span>)
    ensures TripSpans(TripSpans(spans)) == TripSpans(spans) <==> NoHugeAttributes(spans)
  {
    var once := TripSpans(spans);
    var twice := TripSpans(once);
    forall k | 0 <= k < |spans| ensures twice[k] == once[k] <==> NoHuge(AttrsOf(spans[k].attributes)) {
      SpanSettlesExactly(spans, spans[k]);
    }
    if twice == once {
      assert forall k :: 0 <= k < |spans| ==> twice[k] == once[k];
    }
  }
}
