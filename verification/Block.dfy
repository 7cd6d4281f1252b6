/** The block-IO gadget: issue and completion paired per (device, sector), aggregated
    into a log-linear histogram and a byte counter per device and direction. */
module Block {
  import opened BpfMaps
  import opened Clock
  import opened Histograms
  import opened Options
  import opened Percentiles
  import opened Powers
  import opened Slots
  import opened Sums
  import opened Traces
  import RealSums

  datatype Config = Config(maxInflight: nat, maxKeys: nat)
  datatype RqKey = RqKey(dev: nat, sector: nat)
  datatype RqStart = RqStart(ts: Word, bytes: nat, isWrite: bool)
  datatype BlkKey = BlkKey(dev: nat, isWrite: bool)
  datatype BlkStat = BlkStat(slots: seq<nat>, bytes: nat)

  datatype Event =
    | Issue(key: RqKey, start: RqStart)
    | Complete(key: RqKey, now: Word)

  // ---- what the gadget stands for: every sample kept ----------------------------------

  datatype Sample = Sample(delta: nat, bytes: nat)

  /** Requests in flight, the samples kept, and how many completions found their issue and how
      many of those a full device table refused. */
  datatype Log = Log(inflight: map<RqKey, RqStart>, samples: map<BlkKey, seq<Sample>>, matched: nat, refused: nat)

  const NOTHING := Log(map[], map[], 0, 0)

  function Kept(samples: map<BlkKey, seq<Sample>>, k: BlkKey): seq<Sample>
  {
    if k in samples then samples[k] else []
  }

  /** Keep the sample under its device and direction, unless the device table is full. */
  function Keep(samples: map<BlkKey, seq<Sample>>, maxKeys: nat, k: BlkKey, sample: Sample): map<BlkKey, seq<Sample>>
  {
    if HasRoom(samples, maxKeys, k) then samples[k := Kept(samples, k) + [sample]] else samples
  }

  predicate HasRoom(samples: map<BlkKey, seq<Sample>>, maxKeys: nat, k: BlkKey)
  {
    k in samples || |samples| < maxKeys
  }

  /** The sample that the completion of `key` at `now` makes of its issue. */
  function SampleOf(start: RqStart, now: Word): Sample
  {
    Sample(Delta(now, start.ts), start.bytes)
  }

  function Step(cfg: Config, log: Log, e: Event): Log
  {
    match e
    case Issue(key, start) => log.(inflight := Put(log.inflight, cfg.maxInflight, key, start))
    case Complete(key, now) =>
      if key !in log.inflight then log
      else
        var start := log.inflight[key];
        var k := BlkKey(key.dev, start.isWrite);
        Log(Delete(log.inflight, key), Keep(log.samples, cfg.maxKeys, k, SampleOf(start, now)),
            log.matched + 1, log.refused + if HasRoom(log.samples, cfg.maxKeys, k) then 0 else 1)
  }

  function Stepper(cfg: Config): (Log, Event) -> Log
  {
    (log: Log, e: Event) => Step(cfg, log, e)
  }

  /** The log after the first `n` events. */
  function Run(cfg: Config, trace: seq<Event>, n: nat): Log
    requires n <= |trace|
  {
    Fold(Stepper(cfg), NOTHING, trace, n)
  }

  function Deltas(samples: seq<Sample>): (deltas: seq<nat>)
    ensures |deltas| == |samples|
    ensures forall i :: 0 <= i < |samples| ==> deltas[i] == samples[i].delta
  {
    seq(|samples|, i requires 0 <= i < |samples| => samples[i].delta)
  }

  function ByteTotal(samples: seq<Sample>): nat
  {
    if samples == [] then 0 else ByteTotal(samples[..|samples| - 1]) + samples[|samples| - 1].bytes
  }

  /** The aggregate of a list of samples: its log-linear histogram and its bytes modulo 2^64. */
  function Aggregate(samples: seq<Sample>): (st: BlkStat)
    ensures |st.slots| == LINEAR_SLOTS
  {
    BlkStat(Histogram(Buckets(Deltas(samples), LinearSlot), LINEAR_SLOTS), ByteTotal(samples) % U64)
  }

  lemma AggregateAppend(samples: seq<Sample>, sample: Sample)
    ensures var st := Aggregate(samples);
            var slot := LinearSlot(sample.delta);
            && slot < LINEAR_SLOTS
            && Aggregate(samples + [sample])
               == BlkStat(st.slots[slot := st.slots[slot] + 1], (st.bytes + sample.bytes) % U64)
  {
    var deltas, slot := Deltas(samples), LinearSlot(sample.delta);
    LinearSlotRefinesLog2(sample.delta);
    assert Deltas(samples + [sample]) == deltas + [sample.delta];
    assert Buckets(deltas + [sample.delta], LinearSlot) == Buckets(deltas, LinearSlot) + [slot];
    HistogramAppend(Buckets(deltas, LinearSlot), slot, LINEAR_SLOTS);
    assert (samples + [sample])[..|samples|] == samples;
    ModAdd(ByteTotal(samples), sample.bytes);
  }

  lemma ModAdd(total: nat, b: nat)
    ensures (total % U64 + b) % U64 == (total + b) % U64
  {}

  // ---- the probe -----------------------------------------------------------------------

  /** The kernel-zeroed scratch entry. */
  function ZeroStat(): (st: BlkStat)
    ensures |st.slots| == LINEAR_SLOTS && forall i :: 0 <= i < LINEAR_SLOTS ==> st.slots[i] == 0
  {
    BlkStat(seq(LINEAR_SLOTS, _ => 0), 0)
  }

  /** Each stored entry is the aggregate of the samples kept for its key. */
  ghost predicate Summarises(stats: map<BlkKey, BlkStat>, samples: map<BlkKey, seq<Sample>>)
  {
    stats.Keys == samples.Keys && forall k :: k in stats ==> stats[k] == Aggregate(samples[k])
  }

  function Bump(st: BlkStat, slot: nat, bytes: nat): BlkStat
    requires slot < |st.slots|
  {
    BlkStat(st.slots[slot := st.slots[slot] + 1], (st.bytes + bytes) % U64)
  }

  /** The entry of `k`, a zero one if there is none yet. */
  function Entry(stats: map<BlkKey, BlkStat>, k: BlkKey): BlkStat
  {
    if k in stats then stats[k] else ZeroStat()
  }

  predicate Admits(stats: map<BlkKey, BlkStat>, maxKeys: nat, k: BlkKey)
  {
    k in stats || |stats| < maxKeys
  }

  /** `stats` after one more sample for `k`. */
  function Counted(stats: map<BlkKey, BlkStat>, maxKeys: nat, k: BlkKey, delta: nat, bytes: nat): map<BlkKey, BlkStat>
    requires LinearSlot(delta) < |Entry(stats, k).slots|
  {
    if Admits(stats, maxKeys, k) then stats[k := Bump(Entry(stats, k), LinearSlot(delta), bytes)] else stats
  }

  lemma EntryIsAggregate(stats: map<BlkKey, BlkStat>, samples: map<BlkKey, seq<Sample>>, k: BlkKey)
    requires Summarises(stats, samples)
    ensures Entry(stats, k) == Aggregate(Kept(samples, k))
  {
    assert Aggregate([]).slots == ZeroStat().slots;
  }

  lemma BumpIsAggregate(samples: seq<Sample>, sample: Sample)
    ensures LinearSlot(sample.delta) < |Aggregate(samples).slots|
    ensures Bump(Aggregate(samples), LinearSlot(sample.delta), sample.bytes) == Aggregate(samples + [sample])
  {
    AggregateAppend(samples, sample);
  }

  lemma CountKeepsSummary(
      stats: map<BlkKey, BlkStat>, samples: map<BlkKey, seq<Sample>>, maxKeys: nat, k: BlkKey, sample: Sample)
    requires Summarises(stats, samples)
    ensures LinearSlot(sample.delta) < |Entry(stats, k).slots|
    ensures Summarises(Counted(stats, maxKeys, k, sample.delta, sample.bytes), Keep(samples, maxKeys, k, sample))
  {
    EntryIsAggregate(stats, samples, k);
    BumpIsAggregate(Kept(samples, k), sample);
    SameSize(stats, samples);
  }

  class Probe {
    const cfg: Config
    var inflight: map<RqKey, RqStart>
    var stats: map<BlkKey, BlkStat>
    ghost var log: Log

    ghost predicate Valid()
      reads this
    {
      inflight == log.inflight && Summarises(stats, log.samples)
    }

    constructor (cfg: Config)
      ensures this.cfg == cfg && Valid() && log == NOTHING
    {
      this.cfg := cfg;
      inflight, stats := map[], map[];
      log := NOTHING;
    }

    /** A request is issued; anything but a read counts as a write. */
    method HandleIssue(key: RqKey, ts: Word, bytes: nat, rwbs: char)
      requires Valid()
      modifies this
      ensures Valid() && log == Step(cfg, old(log), Issue(key, RqStart(ts, bytes, rwbs != 'R')))
    {
      var start := RqStart(ts, bytes, rwbs != 'R');
      inflight := Put(inflight, cfg.maxInflight, key, start);
      log := Step(cfg, log, Issue(key, start));
    }

    /** A request completes: the maps stay the aggregate of all samples kept so far. */
    method HandleComplete(key: RqKey, now: Word)
      requires Valid()
      modifies this
      ensures Valid() && log == Step(cfg, old(log), Complete(key, now))
    {
      if key !in inflight {
        return;
      }
      var start := inflight[key];
      var k := BlkKey(key.dev, start.isWrite);
      Record(k, SampleOf(start, now), log.samples);
      inflight := Delete(inflight, key);
      log := Step(cfg, log, Complete(key, now));
    }

    /** Add one sample for `k` to the maps that summarise `samples`. */
    method Record(k: BlkKey, sample: Sample, ghost samples: map<BlkKey, seq<Sample>>)
      requires sample.delta < U64 && Summarises(stats, samples)
      modifies this`stats
      ensures Summarises(stats, Keep(samples, cfg.maxKeys, k, sample))
    {
      CountKeepsSummary(stats, samples, cfg.maxKeys, k, sample);
      Count(k, sample.delta, sample.bytes);
    }

    /** Find or create the entry of `k`, then bump its slot and bytes. */
    method Count(k: BlkKey, delta: nat, bytes: nat)
      requires delta < U64 && LinearSlot(delta) < |Entry(stats, k).slots|
      modifies this`stats
      ensures stats == Counted(old(stats), cfg.maxKeys, k, delta, bytes)
    {
      if k !in stats {
        stats := PutNew(stats, cfg.maxKeys, k, ZeroStat());
        if k !in stats {
          return;
        }
      }
      var slot := LogLinearSlot(delta);
      stats := stats[k := Bump(stats[k], slot, bytes)];
    }
  }

  lemma SameSize(stats: map<BlkKey, BlkStat>, samples: map<BlkKey, seq<Sample>>)
    requires stats.Keys == samples.Keys
    ensures |stats| == |samples|
  {
    assert |stats| == |stats.Keys| && |samples| == |samples.Keys|;
  }

  // ---- the samples of a trace ------------------------------------------------------------

  /** The latest issue of `key` among the first `n` events that has not completed since. */
  function OpenIssue(trace: seq<Event>, n: nat, key: RqKey): (x: Option<nat>)
    requires n <= |trace|
    ensures x.Some? ==> x.value < n && trace[x.value].Issue? && trace[x.value].key == key
  {
    if n == 0 then None
    else if trace[n - 1].key != key then OpenIssue(trace, n - 1, key)
    else if trace[n - 1].Issue? then Some(n - 1)
    else None
  }

  /** The completion at `e` has an open issue. */
  predicate Paired(trace: seq<Event>, e: nat)
    requires e < |trace|
  {
    trace[e].Complete? && OpenIssue(trace, e, trace[e].key).Some?
  }

  function PairCount(trace: seq<Event>, n: nat): nat
    requires n <= |trace|
  {
    if n == 0 then 0 else PairCount(trace, n - 1) + if Paired(trace, n - 1) then 1 else 0
  }

  /** The device and direction of a paired completion. */
  function DeviceOf(trace: seq<Event>, e: nat): BlkKey
    requires e < |trace| && Paired(trace, e)
  {
    BlkKey(trace[e].key.dev, trace[OpenIssue(trace, e, trace[e].key).value].start.isWrite)
  }

  /** The time from its issue to the completion at `e`, and the bytes of the issue; should the
      clock have gone back, what is missing to 2^64. */
  function PairSample(trace: seq<Event>, e: nat): Sample
    requires e < |trace| && Paired(trace, e)
  {
    var issue, now := trace[OpenIssue(trace, e, trace[e].key).value].start, trace[e].now;
    Sample(if issue.ts <= now then now - issue.ts else U64 - (issue.ts - now), issue.bytes)
  }

  /** The sample of `k` that the event at `e` completes, if any. */
  function SampleAt(trace: seq<Event>, e: nat, k: BlkKey): seq<Sample>
    requires e < |trace|
  {
    if Paired(trace, e) && DeviceOf(trace, e) == k then [PairSample(trace, e)] else []
  }

  /** All samples of `k` among the first `n` events, in order. */
  function OfflineSamples(trace: seq<Event>, n: nat, k: BlkKey): seq<Sample>
    requires n <= |trace|
  {
    if n == 0 then [] else OfflineSamples(trace, n - 1, k) + SampleAt(trace, n - 1, k)
  }

  /** The requests open after the first `n` events. */
  ghost function OpenRequests(trace: seq<Event>, n: nat): (open: set<RqKey>)
    requires n <= |trace|
    ensures forall key :: key in open <==> OpenIssue(trace, n, key).Some?
  {
    if n == 0 then {}
    else if trace[n - 1].Issue? then OpenRequests(trace, n - 1) + {trace[n - 1].key}
    else OpenRequests(trace, n - 1) - {trace[n - 1].key}
  }

  /** At no time among the first `n` events are more requests open than `capacity`. */
  ghost predicate RequestsFit(trace: seq<Event>, n: nat, capacity: nat)
  {
    n <= |trace| && forall m :: 0 <= m <= n ==> |OpenRequests(trace, m)| <= capacity
  }

  /** The devices and directions that the pairs among the first `n` events have samples for. */
  ghost function Devices(trace: seq<Event>, n: nat): set<BlkKey>
    requires n <= |trace|
  {
    if n == 0 then {}
    else Devices(trace, n - 1) + if Paired(trace, n - 1) then {DeviceOf(trace, n - 1)} else {}
  }

  lemma {:induction false} DevicesGrow(trace: seq<Event>, i: nat, n: nat)
    requires i <= n <= |trace|
    ensures Devices(trace, i) <= Devices(trace, n)
  {
    if i < n {
      DevicesGrow(trace, i, n - 1);
    }
  }

  /** Neither table ever refuses an entry: no more requests are open at once, and no more devices
      and directions have samples, than the tables hold. */
  ghost predicate Fits(cfg: Config, trace: seq<Event>, n: nat)
  {
    RequestsFit(trace, n, cfg.maxInflight) && |Devices(trace, n)| <= cfg.maxKeys
  }

  lemma FitsBefore(cfg: Config, trace: seq<Event>, i: nat, n: nat)
    requires i <= n && Fits(cfg, trace, n)
    ensures Fits(cfg, trace, i)
  {
    DevicesGrow(trace, i, n);
    SubsetSize(Devices(trace, i), Devices(trace, n));
  }

  /** What is in flight under `key` is the issue that `x` points to, if any. */
  ghost predicate Stored(trace: seq<Event>, inflight: map<RqKey, RqStart>, key: RqKey, x: Option<nat>)
  {
    if x.Some? then
      x.value < |trace| && trace[x.value].Issue? && key in inflight && inflight[key] == trace[x.value].start
    else key !in inflight
  }

  /** The request in flight under every key is its open one. */
  ghost predicate InFlight(trace: seq<Event>, n: nat, log: Log)
  {
    n <= |trace| && forall key :: Stored(trace, log.inflight, key, OpenIssue(trace, n, key))
  }

  lemma InFlightKeys(trace: seq<Event>, n: nat, log: Log)
    requires InFlight(trace, n, log)
    ensures log.inflight.Keys == OpenRequests(trace, n)
  {
    forall key ensures key in log.inflight.Keys <==> key in OpenRequests(trace, n) {
      assert Stored(trace, log.inflight, key, OpenIssue(trace, n, key));
    }
  }

  lemma InflightOfStep(cfg: Config, log: Log, e: Event)
    ensures Step(cfg, log, e).inflight
            == if e.Issue? then Put(log.inflight, cfg.maxInflight, e.key, e.start) else Delete(log.inflight, e.key)
  {
    if e.Complete? && e.key !in log.inflight {
      assert Delete(log.inflight, e.key) == log.inflight;
    }
  }

  lemma IssueHasRoom(trace: seq<Event>, n: nat, log: Log, capacity: nat)
    requires n < |trace| && trace[n].Issue? && InFlight(trace, n, log) && |OpenRequests(trace, n + 1)| <= capacity
    ensures |log.inflight.Keys + {trace[n].key}| <= capacity
  {
    InFlightKeys(trace, n, log);
  }

  /** An issue is stored, and a completion deletes what is stored for it. */
  lemma InflightAfter(cfg: Config, trace: seq<Event>, n: nat, log: Log)
    requires n < |trace| && InFlight(trace, n, log) && |OpenRequests(trace, n + 1)| <= cfg.maxInflight
    ensures Step(cfg, log, trace[n]).inflight
            == if trace[n].Issue? then log.inflight[trace[n].key := trace[n].start]
               else Delete(log.inflight, trace[n].key)
  {
    InflightOfStep(cfg, log, trace[n]);
    if trace[n].Issue? {
      IssueHasRoom(trace, n, log, cfg.maxInflight);
      PutRoom(log.inflight, cfg.maxInflight, trace[n].key, trace[n].start);
    }
  }

  lemma StoredAfter(trace: seq<Event>, n: nat, inflight: map<RqKey, RqStart>, m: nat, after: map<RqKey, RqStart>)
    requires n < |trace| && m == n + 1
    requires after == if trace[n].Issue? then inflight[trace[n].key := trace[n].start]
                      else Delete(inflight, trace[n].key)
    requires forall key :: Stored(trace, inflight, key, OpenIssue(trace, n, key))
    ensures forall key :: Stored(trace, after, key, OpenIssue(trace, m, key))
  {
    forall key ensures Stored(trace, after, key, OpenIssue(trace, m, key)) {
      assert Stored(trace, inflight, key, OpenIssue(trace, n, key));
    }
  }

  lemma StepInFlight(cfg: Config, trace: seq<Event>, n: nat, log: Log)
    requires n < |trace| && InFlight(trace, n, log) && |OpenRequests(trace, n + 1)| <= cfg.maxInflight
    ensures InFlight(trace, n + 1, Step(cfg, log, trace[n]))
  {
    InflightAfter(cfg, trace, n, log);
    StoredAfter(trace, n, log.inflight, n + 1, Step(cfg, log, trace[n]).inflight);
  }

  lemma InFlightSteps(cfg: Config, trace: seq<Event>, n: nat)
    requires RequestsFit(trace, n, cfg.maxInflight)
    ensures forall i: nat, log: Log :: i < n && InFlight(trace, i, log)
              ==> InFlight(trace, i + 1, Stepper(cfg)(log, trace[i]))
  {
    forall i: nat, log: Log | i < n && InFlight(trace, i, log)
      ensures InFlight(trace, i + 1, Stepper(cfg)(log, trace[i]))
    {
      StepInFlight(cfg, trace, i, log);
    }
  }

  lemma InFlightIsOpen(cfg: Config, trace: seq<Event>, n: nat)
    requires RequestsFit(trace, n, cfg.maxInflight)
    ensures InFlight(trace, n, Run(cfg, trace, n))
  {
    var inv := (i: nat, log: Log) => InFlight(trace, i, log);
    InFlightSteps(cfg, trace, n);
    FoldKeeps(Stepper(cfg), NOTHING, trace, n, inv);
  }

  lemma InflightBounded(cfg: Config, trace: seq<Event>, n: nat)
    requires n <= |trace|
    ensures |Run(cfg, trace, n).inflight| <= cfg.maxInflight
  {
    var inv := (i: nat, log: Log) => |log.inflight| <= cfg.maxInflight;
    forall i: nat, log: Log | i < n && inv(i, log) ensures inv(i + 1, Stepper(cfg)(log, trace[i])) {
      var e := trace[i];
      if e.Issue? {
        PutBounded(log.inflight, cfg.maxInflight, e.key, e.start);
      } else {
        DeleteBounded(log.inflight, e.key);
      }
    }
    FoldKeeps(Stepper(cfg), NOTHING, trace, n, inv);
  }

  /** The requests in flight are the open ones throughout a trace exactly when the open ones
      always fit the in-flight table. */
  lemma InFlightExactly(cfg: Config, trace: seq<Event>)
    ensures (forall n: nat :: n <= |trace| ==> InFlight(trace, n, Run(cfg, trace, n)))
            <==> RequestsFit(trace, |trace|, cfg.maxInflight)
  {
    if RequestsFit(trace, |trace|, cfg.maxInflight) {
      forall n: nat | n <= |trace| ensures InFlight(trace, n, Run(cfg, trace, n)) {
        InFlightIsOpen(cfg, trace, n);
      }
    }
    if forall n: nat :: n <= |trace| ==> InFlight(trace, n, Run(cfg, trace, n)) {
      forall m | 0 <= m <= |trace| ensures |OpenRequests(trace, m)| <= cfg.maxInflight {
        InFlightKeys(trace, m, Run(cfg, trace, m));
        InflightBounded(cfg, trace, m);
      }
    }
  }

  /** The log agrees with the offline pairing. */
  ghost predicate Offline(trace: seq<Event>, n: nat, log: Log, k: BlkKey)
  {
    && InFlight(trace, n, log) && log.samples.Keys == Devices(trace, n) && log.matched == PairCount(trace, n)
    && Kept(log.samples, k) == OfflineSamples(trace, n, k)
  }

  /** A completion whose issue is in flight makes its sample; nothing else does. */
  lemma SamplesOfStep(cfg: Config, trace: seq<Event>, n: nat, log: Log)
    requires n < |trace| && Stored(trace, log.inflight, trace[n].key, OpenIssue(trace, n, trace[n].key))
    ensures var log' := Step(cfg, log, trace[n]);
            if Paired(trace, n) then
              && log'.samples == Keep(log.samples, cfg.maxKeys, DeviceOf(trace, n), PairSample(trace, n))
              && log'.matched == log.matched + 1
            else log'.samples == log.samples && log'.matched == log.matched
  {
  }

  lemma KeepRoom(samples: map<BlkKey, seq<Sample>>, maxKeys: nat, d: BlkKey, sample: Sample, k: BlkKey)
    requires |samples.Keys + {d}| <= maxKeys
    ensures Keep(samples, maxKeys, d, sample).Keys == samples.Keys + {d}
    ensures Kept(Keep(samples, maxKeys, d, sample), k) == Kept(samples, k) + if k == d then [sample] else []
  {
    PutRoom(samples, maxKeys, d, []);
    KeepKeys(samples, maxKeys, d, sample);
    if k != d {
      assert Kept(samples, k) + [] == Kept(samples, k);
    }
  }

  lemma StepSample(cfg: Config, trace: seq<Event>, n: nat, log: Log, k: BlkKey)
    requires n < |trace| && Stored(trace, log.inflight, trace[n].key, OpenIssue(trace, n, trace[n].key))
    requires log.samples.Keys == Devices(trace, n) && |Devices(trace, n + 1)| <= cfg.maxKeys
    ensures Step(cfg, log, trace[n]).samples.Keys == Devices(trace, n + 1)
    ensures Step(cfg, log, trace[n]).matched == log.matched + if Paired(trace, n) then 1 else 0
    ensures Kept(Step(cfg, log, trace[n]).samples, k) == Kept(log.samples, k) + SampleAt(trace, n, k)
  {
    SamplesOfStep(cfg, trace, n, log);
    if Paired(trace, n) {
      KeepRoom(log.samples, cfg.maxKeys, DeviceOf(trace, n), PairSample(trace, n), k);
    } else {
      assert Kept(log.samples, k) + [] == Kept(log.samples, k);
    }
  }

  lemma StepOffline(cfg: Config, trace: seq<Event>, n: nat, log: Log, k: BlkKey)
    requires n < |trace| && Fits(cfg, trace, n + 1) && Offline(trace, n, log, k)
    ensures Offline(trace, n + 1, Step(cfg, log, trace[n]), k)
  {
    assert Stored(trace, log.inflight, trace[n].key, OpenIssue(trace, n, trace[n].key));
    StepSample(cfg, trace, n, log, k);
    StepInFlight(cfg, trace, n, log);
  }

  lemma OfflineSteps(cfg: Config, trace: seq<Event>, n: nat, k: BlkKey)
    requires Fits(cfg, trace, n)
    ensures forall i: nat, log: Log :: i < n && Offline(trace, i, log, k)
              ==> Offline(trace, i + 1, Stepper(cfg)(log, trace[i]), k)
  {
    forall i: nat, log: Log | i < n && Offline(trace, i, log, k)
      ensures Offline(trace, i + 1, Stepper(cfg)(log, trace[i]), k)
    {
      FitsBefore(cfg, trace, i + 1, n);
      StepOffline(cfg, trace, i, log, k);
    }
  }

  lemma OfflineStart(trace: seq<Event>, k: BlkKey)
    ensures Offline(trace, 0, NOTHING, k)
  {
  }

  /** With room in both tables, the samples kept for a device and direction are all its pairs:
      every completion with the latest uncompleted issue of its request, in order. */
  lemma SamplesAreOffline(cfg: Config, trace: seq<Event>, n: nat, k: BlkKey)
    requires Fits(cfg, trace, n)
    ensures Kept(Run(cfg, trace, n).samples, k) == OfflineSamples(trace, n, k)
  {
    var inv := (i: nat, log: Log) => Offline(trace, i, log, k);
    OfflineStart(trace, k);
    OfflineSteps(cfg, trace, n, k);
    FoldKeeps(Stepper(cfg), NOTHING, trace, n, inv);
  }

  /** So the kernel's entry is the aggregate of all those pairs. */
  lemma EntryIsOffline(cfg: Config, trace: seq<Event>, n: nat, stats: map<BlkKey, BlkStat>, k: BlkKey)
    requires Fits(cfg, trace, n) && Summarises(stats, Run(cfg, trace, n).samples)
    ensures Entry(stats, k) == Aggregate(OfflineSamples(trace, n, k))
  {
    SamplesAreOffline(cfg, trace, n, k);
    EntryIsAggregate(stats, Run(cfg, trace, n).samples, k);
  }

  lemma {:induction false} DevicesSampled(trace: seq<Event>, n: nat, k: BlkKey)
    requires n <= |trace| && k in Devices(trace, n)
    ensures OfflineSamples(trace, n, k) != []
  {
    if k in Devices(trace, n - 1) {
      DevicesSampled(trace, n - 1, k);
    }
  }

  /** And, if the open requests fit, only then: the samples are the offline ones exactly when no
      more devices and directions have samples than the device table holds. */
  lemma OfflineExactly(cfg: Config, trace: seq<Event>, n: nat)
    requires RequestsFit(trace, n, cfg.maxInflight)
    ensures (forall k :: Kept(Run(cfg, trace, n).samples, k) == OfflineSamples(trace, n, k))
            <==> |Devices(trace, n)| <= cfg.maxKeys
  {
    var samples := Run(cfg, trace, n).samples;
    if |Devices(trace, n)| <= cfg.maxKeys {
      forall k ensures Kept(samples, k) == OfflineSamples(trace, n, k) {
        SamplesAreOffline(cfg, trace, n, k);
      }
    }
    if forall k :: Kept(samples, k) == OfflineSamples(trace, n, k) {
      forall k | k in Devices(trace, n) ensures k in samples.Keys {
        DevicesSampled(trace, n, k);
        assert Kept(samples, k) != [];
      }
      SubsetSize(Devices(trace, n), samples.Keys);
      SamplesAccounted(cfg, trace, n);
      assert |samples| == |samples.Keys|;
    }
  }

  // ---- a full in-flight table ----------------------------------------------------------------

  ghost predicate AllMatched(trace: seq<Event>, n: nat, log: Log)
  {
    InFlight(trace, n, log) && log.matched == PairCount(trace, n)
  }

  lemma StepMatches(cfg: Config, trace: seq<Event>, n: nat, log: Log)
    requires n < |trace| && |OpenRequests(trace, n + 1)| <= cfg.maxInflight && AllMatched(trace, n, log)
    ensures AllMatched(trace, n + 1, Step(cfg, log, trace[n]))
  {
    assert Stored(trace, log.inflight, trace[n].key, OpenIssue(trace, n, trace[n].key));
    StepInFlight(cfg, trace, n, log);
  }

  lemma MatchSteps(cfg: Config, trace: seq<Event>, n: nat)
    requires RequestsFit(trace, n, cfg.maxInflight)
    ensures forall i: nat, log: Log :: i < n && AllMatched(trace, i, log)
              ==> AllMatched(trace, i + 1, Stepper(cfg)(log, trace[i]))
  {
    forall i: nat, log: Log | i < n && AllMatched(trace, i, log)
      ensures AllMatched(trace, i + 1, Stepper(cfg)(log, trace[i]))
    {
      StepMatches(cfg, trace, i, log);
    }
  }

  /** With room for the requests open at once, the matched completions are all the pairs. */
  lemma MatchedAreAllPairs(cfg: Config, trace: seq<Event>, n: nat)
    requires RequestsFit(trace, n, cfg.maxInflight)
    ensures Run(cfg, trace, n).matched == PairCount(trace, n)
  {
    var inv := (i: nat, log: Log) => AllMatched(trace, i, log);
    MatchSteps(cfg, trace, n);
    FoldKeeps(Stepper(cfg), NOTHING, trace, n, inv);
  }

  /** One request to each of `m + 1` sectors, the last of which completes. */
  function Burst(m: nat): (trace: seq<Event>)
    ensures |trace| == m + 2 && trace[m + 1] == Complete(RqKey(0, m), 1)
    ensures forall i :: 0 <= i < m + 1 ==> trace[i] == BurstIssue(i)
  {
    seq(m + 1, i requires 0 <= i < m + 1 => BurstIssue(i)) + [Complete(RqKey(0, m), 1)]
  }

  function BurstIssue(sector: nat): Event
  {
    Issue(RqKey(0, sector), RqStart(0, 0, true))
  }

  ghost function Sectors(n: nat): (s: set<RqKey>)
    ensures |s| == n && forall key :: key in s <==> key.dev == 0 && key.sector < n
  {
    if n == 0 then {} else Sectors(n - 1) + {RqKey(0, n - 1)}
  }

  /** The first `n` requests are in flight, as far as there is room. */
  ghost predicate Remembers(cfg: Config, n: nat, log: Log)
  {
    log.inflight.Keys == Sectors(if n < cfg.maxInflight then n else cfg.maxInflight) && log.matched == 0
  }

  lemma IssueRemembered(cfg: Config, n: nat, log: Log)
    requires Remembers(cfg, n, log)
    ensures Remembers(cfg, n + 1, Step(cfg, log, BurstIssue(n)))
  {
    assert |log.inflight| == |log.inflight.Keys|;
  }

  lemma BurstFills(cfg: Config, m: nat)
    ensures Remembers(cfg, m + 1, Run(cfg, Burst(m), m + 1))
  {
    var inv := (i: nat, log: Log) => Remembers(cfg, i, log);
    forall i: nat, log: Log | i < m + 1 && inv(i, log) ensures inv(i + 1, Stepper(cfg)(log, Burst(m)[i])) {
      IssueRemembered(cfg, i, log);
    }
    FoldKeeps(Stepper(cfg), NOTHING, Burst(m), m + 1, inv);
  }

  lemma LastStep(cfg: Config, trace: seq<Event>, n: nat)
    requires n < |trace|
    ensures Run(cfg, trace, n + 1) == Step(cfg, Run(cfg, trace, n), trace[n])
  {
  }

  /** One request more than the table holds: its pair is lost, and nothing records it. */
  lemma BurstLosesAPair(cfg: Config)
    ensures Run(cfg, Burst(cfg.maxInflight), cfg.maxInflight + 2).matched == 0
  {
    var trace, m := Burst(cfg.maxInflight), cfg.maxInflight;
    var log := Run(cfg, trace, m + 1);
    BurstFills(cfg, m);
    LastStep(cfg, trace, m + 1);
    NotRemembered(cfg, log);
    UnknownCompletion(cfg, log, trace[m + 1]);
  }

  lemma NotRemembered(cfg: Config, log: Log)
    requires Remembers(cfg, cfg.maxInflight + 1, log)
    ensures RqKey(0, cfg.maxInflight) !in log.inflight
  {
  }

  lemma UnknownCompletion(cfg: Config, log: Log, e: Event)
    requires e.Complete? && e.key !in log.inflight
    ensures Step(cfg, log, e) == log
  {
  }

  lemma BurstHasAPair(m: nat)
    ensures PairCount(Burst(m), m + 2) > 0
  {
    assert Burst(m)[m] == BurstIssue(m);
    assert OpenIssue(Burst(m), m + 1, RqKey(0, m)) == Some(m);
    assert Paired(Burst(m), m + 1);
  }

  lemma {:induction false} OpenInBurst(trace: seq<Event>, n: nat, m: nat)
    requires n <= |trace| && forall i :: 0 <= i < n ==> trace[i].key in Sectors(m)
    ensures OpenRequests(trace, n) <= Sectors(m)
  {
    if n > 0 {
      OpenInBurst(trace, n - 1, m);
    }
  }

  lemma BurstFits(m: nat)
    ensures RequestsFit(Burst(m), m + 2, m + 1)
  {
    var trace := Burst(m);
    forall k | 0 <= k <= m + 2 ensures |OpenRequests(trace, k)| <= m + 1 {
      OpenInBurst(trace, k, m + 1);
      SubsetSize(OpenRequests(trace, k), Sectors(m + 1));
    }
  }

  /** All pairs are matched in every trace with at most `requests` open at once exactly when the
      in-flight table holds that many; no flag of the output reports the loss. */
  lemma InflightLossExactly(cfg: Config, requests: nat)
    ensures (forall trace: seq<Event> :: RequestsFit(trace, |trace|, requests)
               ==> Run(cfg, trace, |trace|).matched == PairCount(trace, |trace|))
            <==> requests <= cfg.maxInflight
  {
    if requests <= cfg.maxInflight {
      forall trace: seq<Event> | RequestsFit(trace, |trace|, requests)
        ensures Run(cfg, trace, |trace|).matched == PairCount(trace, |trace|)
      {
        MatchedAreAllPairs(cfg, trace, |trace|);
      }
    } else {
      var trace := Burst(cfg.maxInflight);
      BurstLosesAPair(cfg);
      BurstHasAPair(cfg.maxInflight);
      BurstFits(cfg.maxInflight);
      assert Run(cfg, trace, |trace|).matched != PairCount(trace, |trace|);
    }
  }

  // ---- a full device table -----------------------------------------------------------------

  function KeptOf(samples: map<BlkKey, seq<Sample>>): BlkKey -> nat
  {
    k => |Kept(samples, k)|
  }

  /** Every sample kept. */
  ghost function KeptTotal(samples: map<BlkKey, seq<Sample>>): nat
  {
    SumOver(samples.Keys, KeptOf(samples))
  }

  ghost predicate Accounted(cfg: Config, log: Log)
  {
    && KeptTotal(log.samples) + log.refused == log.matched
    && |log.samples| <= cfg.maxKeys
    && (log.refused > 0 ==> |log.samples| >= cfg.maxKeys)
  }

  lemma KeepAccounted(samples: map<BlkKey, seq<Sample>>, maxKeys: nat, k: BlkKey, sample: Sample)
    requires |samples| <= maxKeys
    ensures var kept := Keep(samples, maxKeys, k, sample);
            && KeptTotal(kept) == KeptTotal(samples) + (if HasRoom(samples, maxKeys, k) then 1 else 0)
            && |samples| <= |kept| <= maxKeys
  {
    var kept := Keep(samples, maxKeys, k, sample);
    KeepKeys(samples, maxKeys, k, sample);
    if HasRoom(samples, maxKeys, k) {
      KeptOneMore(samples, kept, k);
      KeySizes(samples, kept, k);
    }
  }

  lemma KeptOneMore(samples: map<BlkKey, seq<Sample>>, kept: map<BlkKey, seq<Sample>>, k: BlkKey)
    requires kept.Keys == samples.Keys + {k} && |Kept(kept, k)| == |Kept(samples, k)| + 1
    requires forall x :: x in samples && x != k ==> kept[x] == samples[x]
    ensures KeptTotal(kept) == KeptTotal(samples) + 1
  {
    SumOverGrow(samples.Keys, kept.Keys, KeptOf(samples));
    SumOverBump(kept.Keys, KeptOf(samples), KeptOf(kept), k);
  }

  lemma KeySizes(samples: map<BlkKey, seq<Sample>>, kept: map<BlkKey, seq<Sample>>, k: BlkKey)
    requires kept.Keys == samples.Keys + {k}
    ensures |kept| == if k in samples then |samples| else |samples| + 1
  {
    assert |kept| == |kept.Keys| && |samples| == |samples.Keys|;
    if k in samples {
      assert samples.Keys + {k} == samples.Keys;
    }
  }

  lemma StepAccounted(cfg: Config, log: Log, e: Event)
    requires Accounted(cfg, log)
    ensures Accounted(cfg, Step(cfg, log, e))
  {
    if e.Complete? && e.key in log.inflight {
      var start := log.inflight[e.key];
      KeepAccounted(log.samples, cfg.maxKeys, BlkKey(e.key.dev, start.isWrite), SampleOf(start, e.now));
    }
  }

  lemma AccountedSteps(cfg: Config, trace: seq<Event>, n: nat)
    requires n <= |trace|
    ensures forall i: nat, log: Log :: i < n && Accounted(cfg, log) ==> Accounted(cfg, Stepper(cfg)(log, trace[i]))
  {
    forall i: nat, log: Log | i < n && Accounted(cfg, log) ensures Accounted(cfg, Stepper(cfg)(log, trace[i])) {
      StepAccounted(cfg, log, trace[i]);
    }
  }

  /** Whatever the table sizes, kept plus refused samples are the matched completions, and a
      refusal means a full device table. */
  lemma SamplesAccounted(cfg: Config, trace: seq<Event>, n: nat)
    requires n <= |trace|
    ensures Accounted(cfg, Run(cfg, trace, n))
  {
    var inv := (i: nat, log: Log) => Accounted(cfg, log);
    AccountedSteps(cfg, trace, n);
    FoldKeeps(Stepper(cfg), NOTHING, trace, n, inv);
  }

  /** Whatever the table sizes, only open requests are in flight, and only devices that have
      samples are kept; none has been refused. */
  ghost predicate NoneRefused(trace: seq<Event>, n: nat, log: Log)
  {
    && n <= |trace| && log.refused == 0 && log.samples.Keys <= Devices(trace, n)
    && forall key :: key in log.inflight ==> Stored(trace, log.inflight, key, OpenIssue(trace, n, key))
  }

  lemma OnlyOpenInFlight(cfg: Config, trace: seq<Event>, n: nat, log: Log, m: nat, after: map<RqKey, RqStart>)
    requires n < |trace| && NoneRefused(trace, n, log) && m == n + 1
    requires after == if trace[n].Issue? then Put(log.inflight, cfg.maxInflight, trace[n].key, trace[n].start)
                      else Delete(log.inflight, trace[n].key)
    ensures forall key :: key in after ==> Stored(trace, after, key, OpenIssue(trace, m, key))
  {
    forall key | key in after ensures Stored(trace, after, key, OpenIssue(trace, m, key)) {
      assert key in log.inflight ==> Stored(trace, log.inflight, key, OpenIssue(trace, n, key));
    }
  }

  lemma KeptInDevices(cfg: Config, trace: seq<Event>, n: nat, log: Log)
    requires n < |trace| && |Devices(trace, n + 1)| <= cfg.maxKeys && NoneRefused(trace, n, log)
    ensures Step(cfg, log, trace[n]).refused == 0
    ensures Step(cfg, log, trace[n]).samples.Keys <= Devices(trace, n + 1)
  {
    var e := trace[n];
    if e.Complete? && e.key in log.inflight {
      assert Stored(trace, log.inflight, e.key, OpenIssue(trace, n, e.key));
      SamplesOfStep(cfg, trace, n, log);
      PutFits(log.samples, cfg.maxKeys, DeviceOf(trace, n), [], Devices(trace, n + 1));
      KeepKeys(log.samples, cfg.maxKeys, DeviceOf(trace, n), SampleOf(log.inflight[e.key], e.now));
    }
  }

  lemma StepRefusesNone(cfg: Config, trace: seq<Event>, n: nat, log: Log)
    requires n < |trace| && |Devices(trace, n + 1)| <= cfg.maxKeys && NoneRefused(trace, n, log)
    ensures NoneRefused(trace, n + 1, Step(cfg, log, trace[n]))
  {
    InflightOfStep(cfg, log, trace[n]);
    OnlyOpenInFlight(cfg, trace, n, log, n + 1, Step(cfg, log, trace[n]).inflight);
    KeptInDevices(cfg, trace, n, log);
  }

  lemma RefusesNoneSteps(cfg: Config, trace: seq<Event>, n: nat)
    requires n <= |trace| && |Devices(trace, n)| <= cfg.maxKeys
    ensures forall i: nat, log: Log :: i < n && NoneRefused(trace, i, log)
              ==> NoneRefused(trace, i + 1, Stepper(cfg)(log, trace[i]))
  {
    forall i: nat, log: Log | i < n && NoneRefused(trace, i, log)
      ensures NoneRefused(trace, i + 1, Stepper(cfg)(log, trace[i]))
    {
      DevicesGrow(trace, i + 1, n);
      SubsetSize(Devices(trace, i + 1), Devices(trace, n));
      StepRefusesNone(cfg, trace, i, log);
    }
  }

  lemma RefusesNone(cfg: Config, trace: seq<Event>, n: nat)
    requires n <= |trace| && |Devices(trace, n)| <= cfg.maxKeys
    ensures Run(cfg, trace, n).refused == 0
  {
    var inv := (i: nat, log: Log) => NoneRefused(trace, i, log);
    RefusesNoneSteps(cfg, trace, n);
    FoldKeeps(Stepper(cfg), NOTHING, trace, n, inv);
  }

  /** One write to each of `m + 1` devices, completed at once. */
  function Flood(m: nat): (trace: seq<Event>)
    ensures |trace| == 2 * m + 2
    ensures forall i :: 0 <= i < |trace| ==> trace[i] == FloodEvent(i)
  {
    seq(2 * m + 2, i requires 0 <= i < 2 * m + 2 => FloodEvent(i))
  }

  function FloodEvent(i: nat): Event
  {
    if i % 2 == 0 then Issue(RqKey(i / 2, 0), RqStart(0, 0, true)) else Complete(RqKey(i / 2, 0), 0)
  }

  ghost function FirstDevices(d: nat): (s: set<BlkKey>)
    ensures |s| == d && forall k :: k in s <==> k.isWrite && k.dev < d
  {
    if d == 0 then {} else FirstDevices(d - 1) + {BlkKey(d - 1, true)}
  }

  /** After `d` devices the table holds the first of them, as far as there is room; the others
      were refused. */
  ghost predicate Flooded(cfg: Config, d: nat, pending: bool, log: Log)
  {
    && log.inflight == (if pending then map[RqKey(d, 0) := RqStart(0, 0, true)] else map[])
    && log.samples.Keys == FirstDevices(if d < cfg.maxKeys then d else cfg.maxKeys)
    && log.refused == if d < cfg.maxKeys then 0 else d - cfg.maxKeys
  }

  ghost predicate FloodedAt(cfg: Config, i: nat, log: Log)
  {
    Flooded(cfg, i / 2, i % 2 == 1, log)
  }

  lemma FloodIssue(cfg: Config, d: nat, log: Log)
    requires cfg.maxInflight > 0 && Flooded(cfg, d, false, log)
    ensures Flooded(cfg, d, true, Step(cfg, log, Issue(RqKey(d, 0), RqStart(0, 0, true))))
  {
  }

  lemma FloodComplete(cfg: Config, d: nat, log: Log)
    requires Flooded(cfg, d, true, log)
    ensures Flooded(cfg, d + 1, false, Step(cfg, log, Complete(RqKey(d, 0), 0)))
  {
    assert Delete(log.inflight, RqKey(d, 0)) == map[];
    KeepKeys(log.samples, cfg.maxKeys, BlkKey(d, true), Sample(0, 0));
    FloodKeys(log.samples, cfg.maxKeys, d);
  }

  lemma KeepKeys(samples: map<BlkKey, seq<Sample>>, maxKeys: nat, k: BlkKey, sample: Sample)
    ensures Keep(samples, maxKeys, k, sample).Keys
              == if HasRoom(samples, maxKeys, k) then samples.Keys + {k} else samples.Keys
  {
  }

  lemma FloodKeys(samples: map<BlkKey, seq<Sample>>, maxKeys: nat, d: nat)
    requires samples.Keys == FirstDevices(if d < maxKeys then d else maxKeys)
    ensures HasRoom(samples, maxKeys, BlkKey(d, true)) <==> d < maxKeys
    ensures d < maxKeys ==> FirstDevices(d + 1) == samples.Keys + {BlkKey(d, true)}
  {
    assert |samples| == |samples.Keys|;
    assert BlkKey(d, true) !in samples.Keys;
  }

  lemma HalfSteps(i: nat)
    ensures i % 2 == 0 ==> (i + 1) / 2 == i / 2 && (i + 1) % 2 == 1
    ensures i % 2 == 1 ==> (i + 1) / 2 == i / 2 + 1 && (i + 1) % 2 == 0
  {
  }

  lemma StepFlood(cfg: Config, i: nat, log: Log)
    requires cfg.maxInflight > 0 && FloodedAt(cfg, i, log)
    ensures FloodedAt(cfg, i + 1, Step(cfg, log, FloodEvent(i)))
  {
    HalfSteps(i);
    if i % 2 == 0 {
      FloodIssue(cfg, i / 2, log);
    } else {
      FloodComplete(cfg, i / 2, log);
    }
  }

  lemma FloodSteps(cfg: Config, trace: seq<Event>, n: nat)
    requires cfg.maxInflight > 0 && n <= |trace| && forall i :: 0 <= i < n ==> trace[i] == FloodEvent(i)
    ensures forall i: nat, log: Log :: i < n && FloodedAt(cfg, i, log)
              ==> FloodedAt(cfg, i + 1, Stepper(cfg)(log, trace[i]))
  {
    forall i: nat, log: Log | i < n && FloodedAt(cfg, i, log)
      ensures FloodedAt(cfg, i + 1, Stepper(cfg)(log, trace[i]))
    {
      StepFlood(cfg, i, log);
    }
  }

  lemma FloodStart(cfg: Config)
    ensures FloodedAt(cfg, 0, NOTHING)
  {
  }

  lemma FloodRefuses(cfg: Config)
    requires cfg.maxInflight > 0
    ensures Run(cfg, Flood(cfg.maxKeys), 2 * cfg.maxKeys + 2).refused == 1
  {
    var trace, n := Flood(cfg.maxKeys), 2 * cfg.maxKeys + 2;
    var inv := (i: nat, log: Log) => FloodedAt(cfg, i, log);
    FloodStart(cfg);
    FloodSteps(cfg, trace, n);
    FoldKeeps(Stepper(cfg), NOTHING, trace, n, inv);
    assert n / 2 == cfg.maxKeys + 1;
    assert FloodedAt(cfg, n, Run(cfg, trace, n));
  }

  lemma {:induction false} WritesBelow(trace: seq<Event>, n: nat, m: nat)
    requires n <= |trace|
    requires forall i :: 0 <= i < n ==> trace[i].key.dev < m && (trace[i].Issue? ==> trace[i].start.isWrite)
    ensures Devices(trace, n) <= FirstDevices(m)
  {
    if n > 0 {
      WritesBelow(trace, n - 1, m);
    }
  }

  lemma FloodDevices(m: nat)
    ensures Devices(Flood(m), |Flood(m)|) <= FirstDevices(m + 1)
  {
    var trace := Flood(m);
    forall i | 0 <= i < |trace|
      ensures trace[i].key.dev < m + 1 && (trace[i].Issue? ==> trace[i].start.isWrite)
    {
      assert trace[i] == FloodEvent(i);
    }
    WritesBelow(trace, |trace|, m + 1);
  }

  lemma FloodIsSmall(cfg: Config, devices: nat)
    requires cfg.maxInflight > 0 && cfg.maxKeys < devices
    ensures var trace := Flood(cfg.maxKeys);
            |Devices(trace, |trace|)| <= devices && Run(cfg, trace, |trace|).refused != 0
  {
    var trace := Flood(cfg.maxKeys);
    FloodRefuses(cfg);
    FloodDevices(cfg.maxKeys);
    SubsetSize(Devices(trace, |trace|), FirstDevices(cfg.maxKeys + 1));
  }

  /** No sample is refused in any trace with samples of at most `devices` devices and directions
      exactly when the device table holds that many; what it refuses, no flag of the output
      reports. */
  lemma RefusalExactly(cfg: Config, devices: nat)
    requires cfg.maxInflight > 0
    ensures (forall trace: seq<Event> :: |Devices(trace, |trace|)| <= devices ==> Run(cfg, trace, |trace|).refused == 0)
            <==> devices <= cfg.maxKeys
  {
    if devices <= cfg.maxKeys {
      forall trace: seq<Event> | |Devices(trace, |trace|)| <= devices ensures Run(cfg, trace, |trace|).refused == 0 {
        RefusesNone(cfg, trace, |trace|);
      }
    } else {
      FloodIsSmall(cfg, devices);
    }
  }

  // ---- what is emitted -------------------------------------------------------------------

  /** What an entry emits by default, whatever samples are behind it: the log2 histogram of
      their durations, whose percentiles are within a half of the true ones. */
  lemma OutputIsFaithful(samples: seq<Sample>, q: real, rank: nat, v: nat)
    requires Rank(Deltas(samples), q, rank) && OrderStatistic(Deltas(samples), rank, v)
    ensures var octaves := Collapsed(Aggregate(samples).slots);
            && octaves == Histogram(Buckets(Deltas(samples), Log2Slot), MAX_OCTAVES)
            && Total(octaves) == |samples|
            && (1 <= v < Pow2(40) ==> RealSums.Abs(Log2Estimate(octaves, q) - v as real) <= (v as real) / 2.0)
  {
    CollapseIsLog2(Deltas(samples));
    Log2PercentileError(Deltas(samples), q, rank, v);
  }

  /** Under --hires the percentiles are within an eighth. */
  lemma HighResOutputIsFaithful(samples: seq<Sample>, bounds: seq<real>, q: real, rank: nat, v: nat)
    requires LogLinear(bounds) && Rank(Deltas(samples), q, rank) && OrderStatistic(Deltas(samples), rank, v)
    requires 2 <= v < 7 * LAST_QUARTER && (7 * v <= 36 * LAST_QUARTER || NoneWraps(Deltas(samples)))
    ensures Total(Aggregate(samples).slots) == 0 || |Aggregate(samples).slots| <= |bounds| + 1
    ensures RealSums.Abs(ExplicitEstimate(Aggregate(samples).slots, bounds, q) - v as real) <= (v as real) / 8.0
  {
    HighResPercentileError(Deltas(samples), bounds, q, rank, v);
  }
}
