/** The identity and fingerprint of a run as OTLP resource attributes, there and back. */
module OtlpResource {
  import opened Decimal
  import opened Options
  import opened Otlp
  import opened Powers

  /** What a run declares beyond the core fingerprint; OTLP carries none of it. Structured values
      are known by their JSON text. */
  datatype Extended = Extended(tuningRequested: string, tuningReadback: string, numa: Option<string>,
                               pinning: Option<string>, mitigations: Option<string>, microcode: Option<string>,
                               nestedVirt: Option<bool>)

  const NOTHING_EXTENDED: Extended := Extended("{}", "{}", None, None, None, None, None)

  datatype Fingerprint = Fingerprint(hostname: string, kernelVersion: string, osRelease: string, cpuModel: string,
                                     cpusLogical: nat, cpusPhysical: nat, smt: bool, governor: string, thp: string,
                                     memoryBytes: nat, kvm: bool, tenancy: string, extended: Extended)

  datatype Identity = Identity(adapter: string, adapterVersion: string, driver: string, driverVersion: string,
                               sutSha: string, params: string, paramsHash: string, definitionSha: string,
                               source: string)

  datatype Grade = Reproducible | Valid | Invalid

  /** The counts are 32-bit and the memory size 64-bit. */
  predicate Sized(f: Fingerprint)
  {
    f.cpusLogical < U32 && f.cpusPhysical < U32 && f.memoryBytes < U64
  }

  /** `as i64`: the upper half of the unsigned range turns negative. */
  function ToI64(n: nat): (i: int)
    requires n < U64
    ensures -I64_LIMIT <= i < I64_LIMIT
  {
    if n < I64_LIMIT then n else n - U64
  }

  /** `as u64`, and `as u32` by keeping the low bits. */
  function ToUnsigned(i: int, size: nat): (n: nat)
    requires size > 0
    ensures n < size
  {
    i % size
  }

  lemma WrapsBack(n: nat)
    requires n < U64
    ensures ToUnsigned(ToI64(n), U64) == n
    ensures n < U32 ==> ToUnsigned(ToI64(n), U32) == n
  {
  }

  // ---- the attributes ---------------------------------------------------------------------------

  /** The keys in the order they are written. */
  function KeyName(i: nat): string
  {
    if i == 0 then "host.name"
    else if i == 1 then "os.version"
    else if i == 2 then "os.description"
    else if i == 3 then "host.cpu.model.name"
    else if i == 4 then "assayist.host.cpu_count_logical"
    else if i == 5 then "assayist.host.cpu_count_physical"
    else if i == 6 then "assayist.host.smt_enabled"
    else if i == 7 then "assayist.host.cpu_governor"
    else if i == 8 then "assayist.host.thp"
    else if i == 9 then "assayist.host.memory_bytes"
    else if i == 10 then "assayist.host.kvm"
    else if i == 11 then "assayist.run.tenancy"
    else if i == 12 then "assayist.target_adapter"
    else if i == 13 then "assayist.target_adapter_version"
    else if i == 14 then "assayist.workload_driver"
    else if i == 15 then "assayist.workload_driver_version"
    else if i == 16 then "assayist.sut_git_sha"
    else if i == 17 then "assayist.params_hash"
    else if i == 18 then "assayist.benchmark_def_sha"
    else "assayist.grade"
  }

  const KEYS: nat := 20

  function CharAt(s: string, i: nat): char
  {
    if i < |s| then s[i] else ' '
  }

  /** Length and two characters tell the keys apart. */
  function Signature(s: string): (nat, char, char)
  {
    (|s|, CharAt(s, 9), CharAt(s, 14))
  }

  function SignatureOf(i: nat): (nat, char, char)
  {
    if i == 0 then (9, ' ', ' ')
    else if i == 1 then (10, 'n', ' ')
    else if i == 2 then (14, 'p', ' ')
    else if i == 3 then (19, 'm', '.')
    else if i == 4 then (31, 'h', 'c')
    else if i == 5 then (32, 'h', 'c')
    else if i == 6 then (25, 'h', 's')
    else if i == 7 then (26, 'h', 'c')
    else if i == 8 then (17, 'h', 't')
    else if i == 9 then (26, 'h', 'm')
    else if i == 10 then (17, 'h', 'k')
    else if i == 11 then (20, 'r', 'e')
    else if i == 12 then (23, 't', 't')
    else if i == 13 then (31, 't', 't')
    else if i == 14 then (24, 'w', 'o')
    else if i == 15 then (32, 'w', 'o')
    else if i == 16 then (20, 's', 'i')
    else if i == 17 then (20, 'p', 's')
    else if i == 18 then (26, 'b', 'm')
    else (14, 'g', ' ')
  }

  lemma KeySigned(i: nat)
    ensures Signature(KeyName(i)) == SignatureOf(i)
  {
  }

  lemma KeysDiffer(i: nat, j: nat)
    requires i < j < KEYS
    ensures KeyName(i) != KeyName(j)
  {
    KeySigned(i);
    KeySigned(j);
    assert SignatureOf(i) != SignatureOf(j);
  }

  function StrValue(s: string): AnyValue
  {
    AnyValue(Some(s), None, None, None)
  }

  function IntValue(n: int): AnyValue
  {
    AnyValue(None, None, None, Some(Text(IntText(n))))
  }

  function BoolValue(b: bool): AnyValue
  {
    AnyValue(None, Some(b), None, None)
  }

  function GradeName(g: Grade): string
  {
    match g
    case Reproducible => "reproducible"
    case Valid => "valid"
    case Invalid => "invalid"
  }

  function FieldValue(f: Fingerprint, id: Identity, g: Grade, i: nat): AnyValue
    requires Sized(f)
  {
    if i == 0 then StrValue(f.hostname)
    else if i == 1 then StrValue(f.kernelVersion)
    else if i == 2 then StrValue(f.osRelease)
    else if i == 3 then StrValue(f.cpuModel)
    else if i == 4 then IntValue(f.cpusLogical)
    else if i == 5 then IntValue(f.cpusPhysical)
    else if i == 6 then BoolValue(f.smt)
    else if i == 7 then StrValue(f.governor)
    else if i == 8 then StrValue(f.thp)
    else if i == 9 then IntValue(ToI64(f.memoryBytes))
    else if i == 10 then BoolValue(f.kvm)
    else if i == 11 then StrValue(f.tenancy)
    else if i == 12 then StrValue(id.adapter)
    else if i == 13 then StrValue(id.adapterVersion)
    else if i == 14 then StrValue(id.driver)
    else if i == 15 then StrValue(id.driverVersion)
    else if i == 16 then StrValue(id.sutSha)
    else if i == 17 then StrValue(id.paramsHash)
    else if i == 18 then StrValue(id.definitionSha)
    else StrValue(GradeName(g))
  }

  /** `resource_attributes`; the gate's verdict comes last, if there is one. */
  function Attributes(f: Fingerprint, id: Identity, g: Grade, verdict: Option<string>): (attrs: seq<Attr>)
    requires Sized(f)
    ensures |attrs| >= KEYS
    ensures forall i :: 0 <= i < KEYS ==> attrs[i] == Attr(Some(KeyName(i)), Some(FieldValue(f, id, g, i)))
  {
    seq(KEYS, i requires 0 <= i < KEYS => Attr(Some(KeyName(i)), Some(FieldValue(f, id, g, i))))
    + if verdict.Some? then [StrAttr("assayist.gate.verdict", verdict.value)] else []
  }

  // ---- reading them back --------------------------------------------------------------------------

  function AttrInt(attrs: seq<Attr>, key: string): Option<int>
  {
    match AttrVal(attrs, key)
    case None => None
    case Some(v) =>
      match v.intValue
      case None => None
      case Some(Text(s)) => ParseI64(s)
      case Some(Num(n)) => AsI64(n)
  }

  function AttrBool(attrs: seq<Attr>, key: string): Option<bool>
  {
    match AttrVal(attrs, key)
    case Some(v) => v.boolValue
    case None => None
  }

  function Or<T>(v: Option<T>, fallback: T): T
  {
    if v.Some? then v.value else fallback
  }

  function ReadFingerprint(attrs: seq<Attr>): Fingerprint
  {
    Fingerprint(
      Or(AttrStr(attrs, KeyName(0)), ""), Or(AttrStr(attrs, KeyName(1)), ""), Or(AttrStr(attrs, KeyName(2)), ""),
      Or(AttrStr(attrs, KeyName(3)), ""), ToUnsigned(Or(AttrInt(attrs, KeyName(4)), 0), U32),
      ToUnsigned(Or(AttrInt(attrs, KeyName(5)), 0), U32), Or(AttrBool(attrs, KeyName(6)), false),
      Or(AttrStr(attrs, KeyName(7)), "unknown"), Or(AttrStr(attrs, KeyName(8)), "unknown"),
      ToUnsigned(Or(AttrInt(attrs, KeyName(9)), 0), U64), Or(AttrBool(attrs, KeyName(10)), false),
      Or(AttrStr(attrs, KeyName(11)), "single_tenant"), NOTHING_EXTENDED)
  }

  function ReadIdentity(attrs: seq<Attr>): Identity
  {
    Identity(
      Or(AttrStr(attrs, KeyName(12)), "unknown"), Or(AttrStr(attrs, KeyName(13)), "unknown"),
      Or(AttrStr(attrs, KeyName(14)), "unknown"), Or(AttrStr(attrs, KeyName(15)), "unknown"),
      Or(AttrStr(attrs, KeyName(16)), "unknown"), "{}", Or(AttrStr(attrs, KeyName(17)), ""),
      Or(AttrStr(attrs, KeyName(18)), ""), "imported")
  }

  lemma {:induction false} AttrAt(attrs: seq<Attr>, key: string, i: nat)
    requires i < |attrs| && attrs[i].key == Some(key)
    requires forall j :: 0 <= j < i ==> attrs[j].key != Some(key)
    ensures AttrVal(attrs, key) == attrs[i].value
  {
    if i > 0 {
      AttrAt(attrs[1..], key, i - 1);
    }
  }

  /** Every key reads its own field. */
  lemma FieldRead(f: Fingerprint, id: Identity, g: Grade, verdict: Option<string>, i: nat)
    requires Sized(f) && i < KEYS
    ensures AttrVal(Attributes(f, id, g, verdict), KeyName(i)) == Some(FieldValue(f, id, g, i))
  {
    var attrs := Attributes(f, id, g, verdict);
    forall j | 0 <= j < i ensures attrs[j].key != Some(KeyName(i)) {
      KeysDiffer(j, i);
    }
    AttrAt(attrs, KeyName(i), i);
  }

  lemma TextRead(f: Fingerprint, id: Identity, g: Grade, verdict: Option<string>, i: nat, s: string)
    requires Sized(f) && i < KEYS && FieldValue(f, id, g, i) == StrValue(s)
    ensures AttrStr(Attributes(f, id, g, verdict), KeyName(i)) == Some(s)
  {
    FieldRead(f, id, g, verdict, i);
  }

  lemma FlagRead(f: Fingerprint, id: Identity, g: Grade, verdict: Option<string>, i: nat, b: bool)
    requires Sized(f) && i < KEYS && FieldValue(f, id, g, i) == BoolValue(b)
    ensures AttrBool(Attributes(f, id, g, verdict), KeyName(i)) == Some(b)
  {
    FieldRead(f, id, g, verdict, i);
  }

  lemma IntRead(f: Fingerprint, id: Identity, g: Grade, verdict: Option<string>, i: nat, n: int)
    requires Sized(f) && i < KEYS && FieldValue(f, id, g, i) == IntValue(n) && -I64_LIMIT <= n < I64_LIMIT
    ensures AttrInt(Attributes(f, id, g, verdict), KeyName(i)) == Some(n)
  {
    FieldRead(f, id, g, verdict, i);
    IntSurvives(n);
  }

  /** The core fingerprint survives whole, sizes above 2^63 included; the extended part is lost. */
  lemma FingerprintSurvives(f: Fingerprint, id: Identity, g: Grade, verdict: Option<string>)
    requires Sized(f)
    ensures ReadFingerprint(Attributes(f, id, g, verdict)) == f.(extended := NOTHING_EXTENDED)
  {
    TextRead(f, id, g, verdict, 0, f.hostname);
    TextRead(f, id, g, verdict, 1, f.kernelVersion);
    TextRead(f, id, g, verdict, 2, f.osRelease);
    TextRead(f, id, g, verdict, 3, f.cpuModel);
    IntRead(f, id, g, verdict, 4, f.cpusLogical);
    IntRead(f, id, g, verdict, 5, f.cpusPhysical);
    FlagRead(f, id, g, verdict, 6, f.smt);
    TextRead(f, id, g, verdict, 7, f.governor);
    TextRead(f, id, g, verdict, 8, f.thp);
    IntRead(f, id, g, verdict, 9, ToI64(f.memoryBytes));
    FlagRead(f, id, g, verdict, 10, f.kvm);
    TextRead(f, id, g, verdict, 11, f.tenancy);
    WrapsBack(f.memoryBytes);
    WrapsBack(f.cpusLogical);
    WrapsBack(f.cpusPhysical);
  }

  lemma AdaptersSurvive(f: Fingerprint, id: Identity, g: Grade, verdict: Option<string>)
    requires Sized(f)
    ensures var back := ReadIdentity(Attributes(f, id, g, verdict));
            && back.adapter == id.adapter && back.adapterVersion == id.adapterVersion
            && back.driver == id.driver && back.driverVersion == id.driverVersion
  {
    TextRead(f, id, g, verdict, 12, id.adapter);
    TextRead(f, id, g, verdict, 13, id.adapterVersion);
    TextRead(f, id, g, verdict, 14, id.driver);
    TextRead(f, id, g, verdict, 15, id.driverVersion);
  }

  lemma DigestsSurvive(f: Fingerprint, id: Identity, g: Grade, verdict: Option<string>)
    requires Sized(f)
    ensures var back := ReadIdentity(Attributes(f, id, g, verdict));
            && back.sutSha == id.sutSha && back.paramsHash == id.paramsHash && back.definitionSha == id.definitionSha
            && back.params == "{}" && back.source == "imported"
  {
    TextRead(f, id, g, verdict, 16, id.sutSha);
    TextRead(f, id, g, verdict, 17, id.paramsHash);
    TextRead(f, id, g, verdict, 18, id.definitionSha);
  }

  /** The identity survives but for its parameters and its source. */
  lemma IdentitySurvives(f: Fingerprint, id: Identity, g: Grade, verdict: Option<string>)
    requires Sized(f)
    ensures ReadIdentity(Attributes(f, id, g, verdict)) == id.(params := "{}", source := "imported")
  {
    AdaptersSurvive(f, id, g, verdict);
    DigestsSurvive(f, id, g, verdict);
  }
}
