/** The KVM exit-latency gadget: exit and entry events paired per vCPU thread and
    aggregated in bounded kernel maps, then read out. */
module Kvm {
  import opened BpfMaps
  import opened Clock
  import opened HistMaps
  import opened Histograms
  import opened Options
  import opened Powers
  import opened Slots
  import opened Sums
  import opened Traces
  import P = Percentiles
  import RealSums

  datatype Config = Config(perGuest: bool, maxThreads: nat, maxKeys: nat)
  datatype Key = Key(cgroup: nat, reason: nat)
  datatype ExitState = ExitState(ts: Word, key: Key)

  /** One tracepoint hit. */
  datatype Event =
    | Exit(tid: nat, ts: Word, reason: nat, cgroup: nat)
    | Entry(tid: nat, now: Word)

  /** The maps, plus how many entries found their exit and how many of those were dropped. */
  datatype State = Maps(
    exitStart: map<nat, ExitState>, hists: Hists<Key>, matched: nat, dropped: nat)

  const EMPTY := Maps(map[], map[], 0, 0)

  function KeyOf(cfg: Config, e: Event): Key
    requires e.Exit?
  {
    Key(if cfg.perGuest then e.cgroup else 0, e.reason)
  }

  // ---- the two handlers, as a function of the maps -----------------------------------

  function OnExit(cfg: Config, s: State, e: Event): State
    requires e.Exit?
  {
    s.(exitStart := Put(s.exitStart, cfg.maxThreads, e.tid, ExitState(e.ts, KeyOf(cfg, e))))
  }

  function OnEntry(cfg: Config, s: State, e: Event): (s': State)
    requires e.Entry? && Sound(s.hists)
    ensures Sound(s'.hists)
  {
    if e.tid !in s.exitStart then s
    else
      var st := s.exitStart[e.tid];
      Maps(Delete(s.exitStart, e.tid),
           Aggregated(s.hists, cfg.maxKeys, st.key, Log2Slot(Delta(e.now, st.ts))),
           s.matched + 1,
           s.dropped + if Admits(s.hists, cfg.maxKeys, st.key) then 0 else 1)
  }

  function Step(cfg: Config, s: State, e: Event): (s': State)
    requires Sound(s.hists)
    ensures Sound(s'.hists)
  {
    if e.Exit? then OnExit(cfg, s, e) else OnEntry(cfg, s, e)
  }

  type SoundState = s: State | Sound(s.hists) witness EMPTY

  function Stepper(cfg: Config): (SoundState, Event) -> SoundState
  {
    (s: SoundState, e: Event) => Step(cfg, s, e)
  }

  /** The maps after the first `n` events. */
  function Run(cfg: Config, trace: seq<Event>, n: nat): (s: SoundState)
    requires n <= |trace|
  {
    Fold<SoundState, Event>(Stepper(cfg), EMPTY, trace, n)
  }

  /** The loaded probe and its maps. */
  class Probe {
    const cfg: Config
    var exitStart: map<nat, ExitState>
    var hists: Hists<Key>
    ghost var matched: nat
    ghost var dropped: nat

    ghost function Snapshot(): State
      reads this
    {
      Maps(exitStart, hists, matched, dropped)
    }

    constructor (cfg: Config)
      ensures this.cfg == cfg && Snapshot() == EMPTY
    {
      this.cfg := cfg;
      exitStart, hists := map[], map[];
      matched, dropped := 0, 0;
    }

    method HandleKvmExit(tid: nat, ts: Word, reason: nat, cgroup: nat)
      modifies this
      ensures Snapshot() == OnExit(cfg, old(Snapshot()), Exit(tid, ts, reason, cgroup))
    {
      var st := ExitState(ts, Key(if cfg.perGuest then cgroup else 0, reason));
      exitStart := Put(exitStart, cfg.maxThreads, tid, st);
    }

    method HandleKvmEntry(tid: nat, now: Word)
      requires Sound(hists)
      modifies this
      ensures Snapshot() == OnEntry(cfg, old(Snapshot()), Entry(tid, now))
    {
      if tid !in exitStart {
        return;
      }
      var st := exitStart[tid];
      matched := matched + 1;
      var recorded;
      hists, recorded := Count(hists, cfg.maxKeys, st.key, Delta(now, st.ts));
      if !recorded {
        dropped := dropped + 1;
      }
      exitStart := Delete(exitStart, tid);
    }

  }

  // ---- the offline histogram -----------------------------------------------------------

  /** The latest exit of `tid` before position `e` that no entry of `tid` has consumed since. */
  function OpenExit(trace: seq<Event>, e: nat, tid: nat): (x: Option<nat>)
    requires e <= |trace|
    ensures x.Some? ==> x.value < e && trace[x.value].Exit? && trace[x.value].tid == tid
  {
    if e == 0 then None
    else if trace[e - 1].tid != tid then OpenExit(trace, e - 1, tid)
    else if trace[e - 1].Exit? then Some(e - 1)
    else None
  }

  predicate Paired(trace: seq<Event>, e: nat)
    requires e < |trace|
  {
    trace[e].Entry? && OpenExit(trace, e, trace[e].tid).Some?
  }

  /** The time from the exit to the entry at `e` that is paired with it; should the clock have
      gone back, what is missing to 2^64. */
  function PairLatency(trace: seq<Event>, e: nat): Word
    requires e < |trace| && Paired(trace, e)
  {
    var ts, now := trace[OpenExit(trace, e, trace[e].tid).value].ts, trace[e].now;
    if ts <= now then now - ts else U64 - (ts - now)
  }

  /** The key that a paired entry's sample goes to. */
  function PairKey(cfg: Config, trace: seq<Event>, e: nat): Key
    requires e < |trace| && Paired(trace, e)
  {
    KeyOf(cfg, trace[OpenExit(trace, e, trace[e].tid).value])
  }

  /** The paired entry at `e` contributes to (`key`, `slot`). */
  predicate SampleAt(cfg: Config, trace: seq<Event>, e: nat, key: Key, slot: nat)
    requires e < |trace|
  {
    Paired(trace, e) && PairKey(cfg, trace, e) == key && Log2Slot(PairLatency(trace, e)) == slot
  }

  /** How many of the first `n` events contribute to (`key`, `slot`). */
  function OfflineCount(cfg: Config, trace: seq<Event>, n: nat, key: Key, slot: nat): nat
    requires n <= |trace|
  {
    if n == 0 then 0
    else OfflineCount(cfg, trace, n - 1, key, slot) + if SampleAt(cfg, trace, n - 1, key, slot) then 1 else 0
  }

  function PairCount(trace: seq<Event>, n: nat): nat
    requires n <= |trace|
  {
    if n == 0 then 0 else PairCount(trace, n - 1) + if Paired(trace, n - 1) then 1 else 0
  }

  /** The threads with an open exit after the first `n` events. */
  ghost function OpenTids(trace: seq<Event>, n: nat): (open: set<nat>)
    requires n <= |trace|
    ensures forall tid :: tid in open <==> OpenExit(trace, n, tid).Some?
  {
    if n == 0 then {}
    else if trace[n - 1].Exit? then OpenTids(trace, n - 1) + {trace[n - 1].tid}
    else OpenTids(trace, n - 1) - {trace[n - 1].tid}
  }

  /** At no time among the first `n` events are more exits open than `capacity`. */
  ghost predicate ExitsFit(trace: seq<Event>, n: nat, capacity: nat)
  {
    n <= |trace| && forall m :: 0 <= m <= n ==> |OpenTids(trace, m)| <= capacity
  }

  /** The keys that the pairs among the first `n` events have samples for. */
  ghost function Keys(cfg: Config, trace: seq<Event>, n: nat): set<Key>
    requires n <= |trace|
  {
    if n == 0 then {}
    else Keys(cfg, trace, n - 1) + if Paired(trace, n - 1) then {PairKey(cfg, trace, n - 1)} else {}
  }

  lemma {:induction false} KeysGrow(cfg: Config, trace: seq<Event>, k: nat, n: nat)
    requires k <= n <= |trace|
    ensures Keys(cfg, trace, k) <= Keys(cfg, trace, n)
  {
    if k < n {
      KeysGrow(cfg, trace, k, n - 1);
    }
  }

  /** Neither map ever refuses an entry: no more exits are open at once, and no more keys have
      samples, than the maps hold. */
  ghost predicate Fits(cfg: Config, trace: seq<Event>, n: nat)
  {
    ExitsFit(trace, n, cfg.maxThreads) && |Keys(cfg, trace, n)| <= cfg.maxKeys
  }

  /** What the handler stashed for `tid` is the exit `x` points to, if any. */
  ghost predicate Stashed(cfg: Config, trace: seq<Event>, s: State, tid: nat, x: Option<nat>)
  {
    if x.Some? then
      && x.value < |trace| && trace[x.value].Exit?
      && tid in s.exitStart && s.exitStart[tid] == ExitState(trace[x.value].ts, KeyOf(cfg, trace[x.value]))
    else tid !in s.exitStart
  }

  /** The pending exit of every thread is its open one. */
  ghost predicate Pending(cfg: Config, trace: seq<Event>, n: nat, s: SoundState)
  {
    n <= |trace| && forall tid :: Stashed(cfg, trace, s, tid, OpenExit(trace, n, tid))
  }

  lemma PendingKeys(cfg: Config, trace: seq<Event>, n: nat, s: SoundState)
    requires Pending(cfg, trace, n, s)
    ensures s.exitStart.Keys == OpenTids(trace, n)
  {
    forall tid ensures tid in s.exitStart.Keys <==> tid in OpenTids(trace, n) {
      assert Stashed(cfg, trace, s, tid, OpenExit(trace, n, tid));
    }
  }

  lemma ExitStartOfStep(cfg: Config, s: SoundState, e: Event)
    ensures Step(cfg, s, e).exitStart
            == if e.Exit? then Put(s.exitStart, cfg.maxThreads, e.tid, ExitState(e.ts, KeyOf(cfg, e)))
               else Delete(s.exitStart, e.tid)
  {
    if e.Entry? && e.tid !in s.exitStart {
      assert Delete(s.exitStart, e.tid) == s.exitStart;
    }
  }

  lemma ExitHasRoom(cfg: Config, trace: seq<Event>, n: nat, s: SoundState)
    requires n < |trace| && trace[n].Exit? && Pending(cfg, trace, n, s)
    requires |OpenTids(trace, n + 1)| <= cfg.maxThreads
    ensures |s.exitStart.Keys + {trace[n].tid}| <= cfg.maxThreads
  {
    PendingKeys(cfg, trace, n, s);
  }

  lemma StashedAfter(cfg: Config, trace: seq<Event>, n: nat, s: State, m: nat, s': State)
    requires n < |trace| && m == n + 1
    requires s'.exitStart == if trace[n].Exit? then
                               s.exitStart[trace[n].tid := ExitState(trace[n].ts, KeyOf(cfg, trace[n]))]
                             else Delete(s.exitStart, trace[n].tid)
    requires forall tid :: Stashed(cfg, trace, s, tid, OpenExit(trace, n, tid))
    ensures forall tid :: Stashed(cfg, trace, s', tid, OpenExit(trace, m, tid))
  {
    forall tid ensures Stashed(cfg, trace, s', tid, OpenExit(trace, m, tid)) {
      assert Stashed(cfg, trace, s, tid, OpenExit(trace, n, tid));
    }
  }

  lemma StepPending(cfg: Config, trace: seq<Event>, n: nat, s: SoundState)
    requires n < |trace| && Pending(cfg, trace, n, s) && |OpenTids(trace, n + 1)| <= cfg.maxThreads
    ensures Pending(cfg, trace, n + 1, Step(cfg, s, trace[n]))
  {
    var e := trace[n];
    ExitStartOfStep(cfg, s, e);
    if e.Exit? {
      ExitHasRoom(cfg, trace, n, s);
      PutRoom(s.exitStart, cfg.maxThreads, e.tid, ExitState(e.ts, KeyOf(cfg, e)));
    }
    StashedAfter(cfg, trace, n, s, n + 1, Step(cfg, s, e));
  }

  lemma PendingSteps(cfg: Config, trace: seq<Event>, n: nat)
    requires ExitsFit(trace, n, cfg.maxThreads)
    ensures forall k: nat, s: SoundState :: k < n && Pending(cfg, trace, k, s)
              ==> Pending(cfg, trace, k + 1, Stepper(cfg)(s, trace[k]))
  {
    forall k: nat, s: SoundState | k < n && Pending(cfg, trace, k, s)
      ensures Pending(cfg, trace, k + 1, Stepper(cfg)(s, trace[k]))
    {
      StepPending(cfg, trace, k, s);
    }
  }

  /** As long as the open exits fit the exit map, every thread has a pending exit exactly when
      it has an open one, and it is that one. */
  lemma PendingIsOpen(cfg: Config, trace: seq<Event>, n: nat)
    requires ExitsFit(trace, n, cfg.maxThreads)
    ensures Pending(cfg, trace, n, Run(cfg, trace, n))
  {
    var inv: (nat, SoundState) -> bool := (k: nat, s: SoundState) => Pending(cfg, trace, k, s);
    PendingSteps(cfg, trace, n);
    FoldKeeps<SoundState, Event>(Stepper(cfg), EMPTY, trace, n, inv);
  }

  /** On a clock that does not go back, what the handler counts for a pair is the plain time
      from its exit to its entry. */
  lemma EntryCountsElapsed(cfg: Config, trace: seq<Event>, n: nat, x: nat)
    requires n < |trace| && ExitsFit(trace, n, cfg.maxThreads)
    requires Paired(trace, n) && x == OpenExit(trace, n, trace[n].tid).value && trace[x].ts <= trace[n].now
    ensures Run(cfg, trace, n + 1).hists
         == Aggregated(Run(cfg, trace, n).hists, cfg.maxKeys, KeyOf(cfg, trace[x]),
                       Log2Slot(trace[n].now - trace[x].ts))
  {
    PendingIsOpen(cfg, trace, n);
    assert Stashed(cfg, trace, Run(cfg, trace, n), trace[n].tid, Some(x));
  }

  lemma ExitMapBounded(cfg: Config, trace: seq<Event>, n: nat)
    requires n <= |trace|
    ensures |Run(cfg, trace, n).exitStart| <= cfg.maxThreads
  {
    var inv: (nat, SoundState) -> bool := (k: nat, s: SoundState) => |s.exitStart| <= cfg.maxThreads;
    forall k: nat, s: SoundState | k < n && inv(k, s) ensures inv(k + 1, Stepper(cfg)(s, trace[k])) {
      var e := trace[k];
      if e.Exit? {
        PutBounded(s.exitStart, cfg.maxThreads, e.tid, ExitState(e.ts, KeyOf(cfg, e)));
      } else {
        DeleteBounded(s.exitStart, e.tid);
      }
    }
    FoldKeeps<SoundState, Event>(Stepper(cfg), EMPTY, trace, n, inv);
  }

  /** And only then: the pending exits are the open ones throughout a trace exactly when the
      open ones always fit. */
  lemma PendingExactly(cfg: Config, trace: seq<Event>)
    ensures (forall n: nat :: n <= |trace| ==> Pending(cfg, trace, n, Run(cfg, trace, n)))
            <==> ExitsFit(trace, |trace|, cfg.maxThreads)
  {
    if ExitsFit(trace, |trace|, cfg.maxThreads) {
      forall n: nat | n <= |trace| ensures Pending(cfg, trace, n, Run(cfg, trace, n)) {
        PendingIsOpen(cfg, trace, n);
      }
    }
    if forall n: nat :: n <= |trace| ==> Pending(cfg, trace, n, Run(cfg, trace, n)) {
      forall m | 0 <= m <= |trace| ensures |OpenTids(trace, m)| <= cfg.maxThreads {
        PendingKeys(cfg, trace, m, Run(cfg, trace, m));
        ExitMapBounded(cfg, trace, m);
      }
    }
  }

  /** The maps agree with the offline pairing of the first `n` events. */
  ghost predicate Offline(cfg: Config, trace: seq<Event>, n: nat, s: SoundState, key: Key, slot: nat)
  {
    && Pending(cfg, trace, n, s) && s.hists.Keys == Keys(cfg, trace, n)
    && HistAt(s.hists, key, slot) == OfflineCount(cfg, trace, n, key, slot)
  }

  /** One event counts exactly the sample it completes. */
  lemma StepCounts(cfg: Config, trace: seq<Event>, s: SoundState, n: nat, key: Key, slot: nat)
    requires n < |trace| && Pending(cfg, trace, n, s)
    requires s.hists.Keys == Keys(cfg, trace, n) && |Keys(cfg, trace, n + 1)| <= cfg.maxKeys
    ensures Step(cfg, s, trace[n]).hists.Keys == Keys(cfg, trace, n + 1)
    ensures HistAt(Step(cfg, s, trace[n]).hists, key, slot)
            == HistAt(s.hists, key, slot) + if SampleAt(cfg, trace, n, key, slot) then 1 else 0
  {
    var e := trace[n];
    assert Stashed(cfg, trace, s, e.tid, OpenExit(trace, n, e.tid));
    if e.Entry? && e.tid in s.exitStart {
      var st := s.exitStart[e.tid];
      PutRoom(s.hists, cfg.maxKeys, st.key, ZeroHist());
      assert Admits(s.hists, cfg.maxKeys, st.key);
      AggregatedAt(s.hists, cfg.maxKeys, st.key, Log2Slot(Delta(e.now, st.ts)), key, slot);
      AggregatedKeys(s.hists, cfg.maxKeys, st.key, Log2Slot(Delta(e.now, st.ts)));
    }
  }

  lemma StepOffline(cfg: Config, trace: seq<Event>, n: nat, s: SoundState, key: Key, slot: nat)
    requires n < |trace| && Fits(cfg, trace, n + 1) && Offline(cfg, trace, n, s, key, slot)
    ensures Offline(cfg, trace, n + 1, Step(cfg, s, trace[n]), key, slot)
  {
    StepCounts(cfg, trace, s, n, key, slot);
    StepPending(cfg, trace, n, s);
  }

  lemma FitsBefore(cfg: Config, trace: seq<Event>, k: nat, n: nat)
    requires k <= n && Fits(cfg, trace, n)
    ensures Fits(cfg, trace, k)
  {
    KeysGrow(cfg, trace, k, n);
    SubsetSize(Keys(cfg, trace, k), Keys(cfg, trace, n));
  }

  lemma OfflineSteps(cfg: Config, trace: seq<Event>, n: nat, key: Key, slot: nat)
    requires Fits(cfg, trace, n)
    ensures forall k: nat, s: SoundState :: k < n && Offline(cfg, trace, k, s, key, slot)
              ==> Offline(cfg, trace, k + 1, Stepper(cfg)(s, trace[k]), key, slot)
  {
    forall k: nat, s: SoundState | k < n && Offline(cfg, trace, k, s, key, slot)
      ensures Offline(cfg, trace, k + 1, Stepper(cfg)(s, trace[k]), key, slot)
    {
      FitsBefore(cfg, trace, k + 1, n);
      StepOffline(cfg, trace, k, s, key, slot);
    }
  }

  lemma OfflineStart(cfg: Config, trace: seq<Event>, key: Key, slot: nat)
    ensures Offline(cfg, trace, 0, EMPTY, key, slot)
  {
  }

  /** For any interleaving of exits and entries over any threads that fits the maps, the
      in-kernel histograms are the offline ones: each entry paired with the latest
      unconsumed exit of its thread, bucketed by capped floor-log2. */
  lemma HistogramsAreOffline(cfg: Config, trace: seq<Event>, n: nat, key: Key, slot: nat)
    requires Fits(cfg, trace, n)
    ensures Run(cfg, trace, n).hists.Keys == Keys(cfg, trace, n)
    ensures HistAt(Run(cfg, trace, n).hists, key, slot) == OfflineCount(cfg, trace, n, key, slot)
  {
    var inv: (nat, SoundState) -> bool := (k: nat, s: SoundState) => Offline(cfg, trace, k, s, key, slot);
    OfflineStart(cfg, trace, key, slot);
    OfflineSteps(cfg, trace, n, key, slot);
    FoldKeeps<SoundState, Event>(Stepper(cfg), EMPTY, trace, n, inv);
  }

  lemma {:induction false} KeysCounted(cfg: Config, trace: seq<Event>, n: nat, key: Key)
    requires n <= |trace| && key in Keys(cfg, trace, n)
    ensures exists slot :: OfflineCount(cfg, trace, n, key, slot) > 0
  {
    if key in Keys(cfg, trace, n - 1) {
      KeysCounted(cfg, trace, n - 1, key);
      var slot :| OfflineCount(cfg, trace, n - 1, key, slot) > 0;
      assert OfflineCount(cfg, trace, n, key, slot) > 0;
    } else {
      var slot := Log2Slot(PairLatency(trace, n - 1));
      assert SampleAt(cfg, trace, n - 1, key, slot);
      assert OfflineCount(cfg, trace, n, key, slot) > 0;
    }
  }

  /** And, if the open exits fit, only then: the histograms are the offline ones exactly when no
      more keys have samples than the histogram map holds. */
  lemma OfflineExactly(cfg: Config, trace: seq<Event>, n: nat)
    requires ExitsFit(trace, n, cfg.maxThreads)
    ensures (forall key, slot :: HistAt(Run(cfg, trace, n).hists, key, slot) == OfflineCount(cfg, trace, n, key, slot))
            <==> |Keys(cfg, trace, n)| <= cfg.maxKeys
  {
    var hists := Run(cfg, trace, n).hists;
    if |Keys(cfg, trace, n)| <= cfg.maxKeys {
      forall key, slot: nat ensures HistAt(hists, key, slot) == OfflineCount(cfg, trace, n, key, slot) {
        HistogramsAreOffline(cfg, trace, n, key, slot);
      }
    }
    if forall key, slot :: HistAt(hists, key, slot) == OfflineCount(cfg, trace, n, key, slot) {
      forall key | key in Keys(cfg, trace, n) ensures key in hists.Keys {
        KeysCounted(cfg, trace, n, key);
        var slot :| OfflineCount(cfg, trace, n, key, slot) > 0;
        assert HistAt(hists, key, slot) > 0;
      }
      SubsetSize(Keys(cfg, trace, n), hists.Keys);
      NoSilentTruncation(cfg, trace, n);
      assert |hists| == |hists.Keys|;
    }
  }

  // ---- from the trace to the gate --------------------------------------------------------

  /** The latencies of `key`'s pairs among the first `n` events, in order. */
  function Latencies(cfg: Config, trace: seq<Event>, n: nat, key: Key): seq<nat>
    requires n <= |trace|
  {
    if n == 0 then []
    else Latencies(cfg, trace, n - 1, key) + LatencyAt(cfg, trace, n - 1, key)
  }

  function LatencyAt(cfg: Config, trace: seq<Event>, e: nat, key: Key): seq<nat>
    requires e < |trace|
  {
    if Paired(trace, e) && PairKey(cfg, trace, e) == key then [PairLatency(trace, e)] else []
  }

  lemma LatencyIsSample(cfg: Config, trace: seq<Event>, e: nat, key: Key, slot: nat)
    requires e < |trace|
    ensures var more := SlotsOf(LatencyAt(cfg, trace, e, key));
            |more| <= 1 && (more != [] && more[0] == slot <==> SampleAt(cfg, trace, e, key, slot))
  {
  }

  /** The slots of the latencies among the first `n` events. */
  function LatencySlots(cfg: Config, trace: seq<Event>, n: nat, key: Key): (slots: seq<nat>)
    requires n <= |trace|
  {
    if n == 0 then []
    else LatencySlots(cfg, trace, n - 1, key) + SlotsOf(LatencyAt(cfg, trace, n - 1, key))
  }

  lemma {:induction false} SlotsAreBuckets(cfg: Config, trace: seq<Event>, n: nat, key: Key)
    requires n <= |trace|
    ensures Buckets(Latencies(cfg, trace, n, key), Log2Slot) == LatencySlots(cfg, trace, n, key)
  {
    if n > 0 {
      SlotsAreBuckets(cfg, trace, n - 1, key);
      BucketsAppend(Latencies(cfg, trace, n - 1, key), LatencyAt(cfg, trace, n - 1, key));
    }
  }

  lemma SlotsOneMore(cfg: Config, trace: seq<Event>, n: nat, key: Key, slot: nat)
    requires n < |trace|
    ensures CountOf(LatencySlots(cfg, trace, n + 1, key), slot)
         == CountOf(LatencySlots(cfg, trace, n, key), slot) + if SampleAt(cfg, trace, n, key, slot) then 1 else 0
  {
    LatencyIsSample(cfg, trace, n, key, slot);
    CountOneMore(LatencySlots(cfg, trace, n, key), SlotsOf(LatencyAt(cfg, trace, n, key)), slot);
  }

  lemma SlotsCounted(cfg: Config, trace: seq<Event>, n: nat, key: Key, slot: nat)
    requires n <= |trace|
    ensures CountOf(LatencySlots(cfg, trace, n, key), slot) == OfflineCount(cfg, trace, n, key, slot)
  {
    for i := 0 to n
      invariant CountOf(LatencySlots(cfg, trace, i, key), slot) == OfflineCount(cfg, trace, i, key, slot)
    {
      SlotsOneMore(cfg, trace, i, key, slot);
    }
  }

  lemma LatenciesCounted(cfg: Config, trace: seq<Event>, n: nat, key: Key, slot: nat)
    requires n <= |trace|
    ensures CountOf(Buckets(Latencies(cfg, trace, n, key), Log2Slot), slot) == OfflineCount(cfg, trace, n, key, slot)
  {
    SlotsAreBuckets(cfg, trace, n, key);
    SlotsCounted(cfg, trace, n, key, slot);
  }

  ghost function LatencyHistogram(cfg: Config, trace: seq<Event>, key: Key): seq<nat>
  {
    HistogramOf(Latencies(cfg, trace, |trace|, key))
  }

  /** The in-kernel histogram of a key is that of all its latencies, and every key with a
      latency has one. */
  lemma HistogramIsOfLatencies(cfg: Config, trace: seq<Event>, key: Key)
    requires Fits(cfg, trace, |trace|)
    ensures var hists := Run(cfg, trace, |trace|).hists;
            if key in hists then hists[key] == LatencyHistogram(cfg, trace, key)
            else Latencies(cfg, trace, |trace|, key) == []
  {
    forall slot | 0 <= slot < MAX_OCTAVES
      ensures HistAt(Run(cfg, trace, |trace|).hists, key, slot)
           == CountOf(Buckets(Latencies(cfg, trace, |trace|, key), Log2Slot), slot)
    {
      HistogramsAreOffline(cfg, trace, |trace|, key, slot);
      LatenciesCounted(cfg, trace, |trace|, key, slot);
    }
    EntryIsHistogram(Run(cfg, trace, |trace|).hists, key, Latencies(cfg, trace, |trace|, key));
  }

  /** So the gate's percentile of a key is within a half of the true one of its latencies. */
  lemma LatencyPercentile(cfg: Config, trace: seq<Event>, key: Key, q: real, rank: nat, v: nat)
    requires Fits(cfg, trace, |trace|)
    requires P.Rank(Latencies(cfg, trace, |trace|, key), q, rank)
    requires P.OrderStatistic(Latencies(cfg, trace, |trace|, key), rank, v)
    ensures key in Run(cfg, trace, |trace|).hists
    ensures var estimate := P.Log2Estimate(Run(cfg, trace, |trace|).hists[key], q);
            && estimate == P.Midpoint(Log2Slot(v))
            && (1 <= v < Pow2(40) ==> RealSums.Abs(estimate - v as real) <= (v as real) / 2.0)
  {
    HistogramIsOfLatencies(cfg, trace, key);
    P.Log2PercentileError(Latencies(cfg, trace, |trace|, key), q, rank, v);
  }

  /** And its mean above three quarters of the true mean, and at most three halves of it. */
  lemma LatencyMean(cfg: Config, trace: seq<Event>, key: Key)
    requires Fits(cfg, trace, |trace|) && Latencies(cfg, trace, |trace|, key) != []
    requires forall i :: 0 <= i < |Latencies(cfg, trace, |trace|, key)|
              ==> 1 <= Latencies(cfg, trace, |trace|, key)[i] < Pow2(40)
    ensures key in Run(cfg, trace, |trace|).hists
    ensures var lat := Latencies(cfg, trace, |trace|, key);
            var m := (P.SampleSum(lat) as real) / (|lat| as real);
            0.75 * m < P.MeanEstimate(Run(cfg, trace, |trace|).hists[key]) <= 1.5 * m
  {
    HistogramIsOfLatencies(cfg, trace, key);
    P.MeanEstimateBrackets(Latencies(cfg, trace, |trace|, key));
  }

  // ---- singleton and per-guest mode --------------------------------------------------

  function GuestCount(cfg: Config, trace: seq<Event>, n: nat, reason: nat, slot: nat): nat -> nat
    requires n <= |trace|
  {
    cgroup => OfflineCount(cfg, trace, n, Key(cgroup, reason), slot)
  }

  function GuestHist(hists: Hists<Key>, reason: nat, slot: nat): nat -> nat
  {
    cgroup => HistAt(hists, Key(cgroup, reason), slot)
  }

  /** The guest whose exit the entry at `e` is paired with. */
  function GuestOf(trace: seq<Event>, e: nat): nat
    requires e < |trace| && Paired(trace, e)
  {
    trace[OpenExit(trace, e, trace[e].tid).value].cgroup
  }

  lemma SampleOfGuest(one: Config, each: Config, trace: seq<Event>, e: nat, cgroup: nat, reason: nat, slot: nat)
    requires !one.perGuest && each.perGuest && e < |trace|
    ensures SampleAt(each, trace, e, Key(cgroup, reason), slot)
       <==> SampleAt(one, trace, e, Key(0, reason), slot) && GuestOf(trace, e) == cgroup
  {
  }

  lemma GuestCountStep(one: Config, each: Config, trace: seq<Event>, n: nat, reason: nat, slot: nat)
    requires !one.perGuest && each.perGuest && n < |trace|
    ensures forall cgroup :: GuestCount(each, trace, n + 1, reason, slot)(cgroup)
              == GuestCount(each, trace, n, reason, slot)(cgroup)
                 + if SampleAt(one, trace, n, Key(0, reason), slot) && GuestOf(trace, n) == cgroup then 1 else 0
  {
    forall cgroup: nat
      ensures GuestCount(each, trace, n + 1, reason, slot)(cgroup)
              == GuestCount(each, trace, n, reason, slot)(cgroup)
                 + if SampleAt(one, trace, n, Key(0, reason), slot) && GuestOf(trace, n) == cgroup then 1 else 0
    {
      SampleOfGuest(one, each, trace, n, cgroup, reason, slot);
    }
  }

  lemma {:induction false} OfflineSingletonIsSum(
      one: Config, each: Config, trace: seq<Event>, n: nat, cgroups: set<nat>, reason: nat, slot: nat)
    requires !one.perGuest && each.perGuest && n <= |trace|
    requires forall i :: 0 <= i < |trace| && trace[i].Exit? ==> trace[i].cgroup in cgroups
    ensures OfflineCount(one, trace, n, Key(0, reason), slot)
            == SumOver(cgroups, GuestCount(each, trace, n, reason, slot))
  {
    if n == 0 {
      SumOverZero(cgroups, GuestCount(each, trace, 0, reason, slot));
    } else {
      OfflineSingletonIsSum(one, each, trace, n - 1, cgroups, reason, slot);
      var f, g := GuestCount(each, trace, n - 1, reason, slot), GuestCount(each, trace, n, reason, slot);
      GuestCountStep(one, each, trace, n - 1, reason, slot);
      if SampleAt(one, trace, n - 1, Key(0, reason), slot) {
        SumOverBump(cgroups, f, g, GuestOf(trace, n - 1));
      } else {
        SumOverSame(cgroups, f, g);
      }
    }
  }

  /** The singleton histogram is the pointwise sum over cgroups of the per-guest ones. */
  lemma SingletonIsSumOfGuests(
      one: Config, each: Config, trace: seq<Event>, cgroups: set<nat>, reason: nat, slot: nat)
    requires !one.perGuest && each.perGuest && Fits(one, trace, |trace|) && Fits(each, trace, |trace|)
    requires forall i :: 0 <= i < |trace| && trace[i].Exit? ==> trace[i].cgroup in cgroups
    ensures HistAt(Run(one, trace, |trace|).hists, Key(0, reason), slot)
            == SumOver(cgroups, GuestHist(Run(each, trace, |trace|).hists, reason, slot))
  {
    var n := |trace|;
    HistogramsAreOffline(one, trace, n, Key(0, reason), slot);
    OfflineSingletonIsSum(one, each, trace, n, cgroups, reason, slot);
    GuestsAreOffline(each, trace, reason, slot, Run(each, trace, n).hists);
    SumOverSame(cgroups, GuestCount(each, trace, n, reason, slot), GuestHist(Run(each, trace, n).hists, reason, slot));
  }

  lemma GuestsAreOffline(cfg: Config, trace: seq<Event>, reason: nat, slot: nat, hists: Hists<Key>)
    requires Fits(cfg, trace, |trace|) && hists == Run(cfg, trace, |trace|).hists
    ensures forall cgroup :: GuestCount(cfg, trace, |trace|, reason, slot)(cgroup)
              == GuestHist(hists, reason, slot)(cgroup)
  {
    forall cgroup: nat
      ensures GuestCount(cfg, trace, |trace|, reason, slot)(cgroup) == GuestHist(hists, reason, slot)(cgroup)
    {
      HistogramsAreOffline(cfg, trace, |trace|, Key(cgroup, reason), slot);
    }
  }

  // ---- full maps -------------------------------------------------------------------------

  /** Recorded plus dropped samples are the matched pairs, and a drop means a full map. */
  ghost predicate Accounted(cfg: Config, s: SoundState)
  {
    && Recorded(s.hists) + s.dropped == s.matched
    && |s.hists| <= cfg.maxKeys
    && (s.dropped > 0 ==> |s.hists| >= cfg.maxKeys)
  }

  lemma StepAccounted(cfg: Config, s: SoundState, e: Event)
    requires Accounted(cfg, s)
    ensures Accounted(cfg, Step(cfg, s, e))
  {
    if e.Entry? && e.tid in s.exitStart {
      var st := s.exitStart[e.tid];
      SampleAccounted(s.hists, cfg.maxKeys, st.key, Log2Slot(Delta(e.now, st.ts)));
    }
  }

  lemma AccountedSteps(cfg: Config, trace: seq<Event>, n: nat)
    requires n <= |trace|
    ensures forall k: nat, s: SoundState :: k < n && Accounted(cfg, s) ==> Accounted(cfg, Stepper(cfg)(s, trace[k]))
  {
    forall k: nat, s: SoundState | k < n && Accounted(cfg, s) ensures Accounted(cfg, Stepper(cfg)(s, trace[k])) {
      StepAccounted(cfg, s, trace[k]);
    }
  }

  /** Whatever the map sizes, no sample goes missing unaccounted: recorded plus dropped
      samples are the matched pairs, and a drop leaves the histogram map full for good. */
  lemma NoSilentTruncation(cfg: Config, trace: seq<Event>, n: nat)
    requires n <= |trace|
    ensures Accounted(cfg, Run(cfg, trace, n))
  {
    var inv: (nat, SoundState) -> bool := (k: nat, s: SoundState) => Accounted(cfg, s);
    AccountedSteps(cfg, trace, n);
    FoldKeeps<SoundState, Event>(Stepper(cfg), EMPTY, trace, n, inv);
  }

  /** One emitted series: its key, buckets and count. */
  datatype Series = Series(key: Key, buckets: seq<nat>, count: nat)

  /** Every series belongs to a live key and counts something. */
  ghost predicate Genuine(hists: Hists<Key>, series: seq<Series>)
  {
    forall i :: 0 <= i < |series| ==>
      && series[i].key in hists && series[i].buckets == hists[series[i].key]
      && series[i].count == Total(series[i].buckets) > 0
  }

  ghost predicate DistinctKeys(series: seq<Series>)
  {
    forall i, j :: 0 <= i < j < |series| ==> series[i].key != series[j].key
  }

  ghost predicate Shown(series: seq<Series>, key: Key)
  {
    exists i :: 0 <= i < |series| && series[i].key == key
  }

  /** One turn of the readout loop: the key's series, if it counted anything. */
  method ReadKey(hists: Hists<Key>, key: Key, before: seq<Series>, ghost rest: set<Key>) returns (series: seq<Series>)
    requires key in hists && key !in rest && Genuine(hists, before) && DistinctKeys(before)
    requires forall i :: 0 <= i < |before| ==> before[i].key !in rest && before[i].key != key
    ensures Genuine(hists, series) && DistinctKeys(series)
    ensures forall i :: 0 <= i < |series| ==> series[i].key !in rest
    ensures forall k :: Shown(before, k) ==> Shown(series, k)
    ensures Total(hists[key]) > 0 ==> Shown(series, key)
  {
    series := before;
    var count := Tally(hists[key]);
    if count > 0 {
      series := before + [Series(key, hists[key], count)];
      assert series[|before|].key == key;
      forall k | Shown(before, k) ensures Shown(series, k) {
        var i :| 0 <= i < |before| && before[i].key == k;
        assert series[i].key == k;
      }
    }
  }

  /** The readout loop: a series per live key with samples, and the overflow flag. */
  method Readout(hists: Hists<Key>, maxEntries: nat) returns (series: seq<Series>, overflow: bool)
    ensures overflow <==> |hists| >= maxEntries
    ensures Genuine(hists, series) && DistinctKeys(series)
    ensures forall k :: k in hists && Total(hists[k]) > 0 ==> Shown(series, k)
  {
    series := [];
    overflow := false;
    var liveKeys := 0;
    var keys := hists.Keys;
    while keys != {}
      invariant keys <= hists.Keys && liveKeys + |keys| == |hists|
      invariant Genuine(hists, series) && DistinctKeys(series)
      invariant forall i :: 0 <= i < |series| ==> series[i].key !in keys
      invariant forall k :: k in hists && k !in keys && Total(hists[k]) > 0 ==> Shown(series, k)
      decreases |keys|
    {
      var key :| key in keys;
      keys := keys - {key};
      liveKeys := liveKeys + 1;
      series := ReadKey(hists, key, series, keys);
    }
    if liveKeys >= maxEntries {
      overflow := true;
    }
  }

  /** A histogram-map drop is always visible: whatever happened, the readout of the final maps
      raises the overflow flag. And if nothing overflowed, what is emitted are the histograms of
      all latencies, key by key. */
  method ReadoutAfter(cfg: Config, trace: seq<Event>) returns (series: seq<Series>, overflow: bool)
    ensures Run(cfg, trace, |trace|).dropped > 0 ==> overflow
    ensures !overflow ==> Recorded(Run(cfg, trace, |trace|).hists) == Run(cfg, trace, |trace|).matched
    ensures Fits(cfg, trace, |trace|) ==> EmitsLatencies(cfg, trace, series)
  {
    NoSilentTruncation(cfg, trace, |trace|);
    series, overflow := Readout(Run(cfg, trace, |trace|).hists, cfg.maxKeys);
    if Fits(cfg, trace, |trace|) {
      EmittedLatencies(cfg, trace, series, Run(cfg, trace, |trace|).hists);
    }
  }

  /** The series are the histograms of all latencies, and every key with a latency has one. */
  ghost predicate EmitsLatencies(cfg: Config, trace: seq<Event>, series: seq<Series>)
  {
    && (forall i :: 0 <= i < |series| ==> series[i].buckets == LatencyHistogram(cfg, trace, series[i].key))
    && (forall key :: Shown(series, key) <==> Latencies(cfg, trace, |trace|, key) != [])
  }

  lemma EmittedLatencies(cfg: Config, trace: seq<Event>, series: seq<Series>, hists: Hists<Key>)
    requires Fits(cfg, trace, |trace|) && hists == Run(cfg, trace, |trace|).hists && Genuine(hists, series)
    requires forall k :: k in hists && Total(hists[k]) > 0 ==> Shown(series, k)
    ensures EmitsLatencies(cfg, trace, series)
  {
    forall i | 0 <= i < |series| ensures series[i].buckets == LatencyHistogram(cfg, trace, series[i].key) {
      HistogramIsOfLatencies(cfg, trace, series[i].key);
    }
    forall key ensures Shown(series, key) <==> Latencies(cfg, trace, |trace|, key) != [] {
      HistogramIsOfLatencies(cfg, trace, key);
      HistogramTotal(Buckets(Latencies(cfg, trace, |trace|, key), Log2Slot), MAX_OCTAVES);
    }
  }

  // ---- losses at the exit map ---------------------------------------------------------

  /** The matched entries are the pairs so far. */
  ghost predicate AllMatched(cfg: Config, trace: seq<Event>, n: nat, s: SoundState)
  {
    Pending(cfg, trace, n, s) && s.matched == PairCount(trace, n)
  }

  lemma StepMatches(cfg: Config, trace: seq<Event>, n: nat, s: SoundState)
    requires n < |trace| && |OpenTids(trace, n + 1)| <= cfg.maxThreads && AllMatched(cfg, trace, n, s)
    ensures AllMatched(cfg, trace, n + 1, Step(cfg, s, trace[n]))
  {
    assert Stashed(cfg, trace, s, trace[n].tid, OpenExit(trace, n, trace[n].tid));
    StepPending(cfg, trace, n, s);
  }

  lemma MatchSteps(cfg: Config, trace: seq<Event>, n: nat)
    requires ExitsFit(trace, n, cfg.maxThreads)
    ensures forall k: nat, s: SoundState :: k < n && AllMatched(cfg, trace, k, s)
              ==> AllMatched(cfg, trace, k + 1, Stepper(cfg)(s, trace[k]))
  {
    forall k: nat, s: SoundState | k < n && AllMatched(cfg, trace, k, s)
      ensures AllMatched(cfg, trace, k + 1, Stepper(cfg)(s, trace[k]))
    {
      StepMatches(cfg, trace, k, s);
    }
  }

  /** With room for the exits open at once, the matched entries are all the pairs there are. */
  lemma MatchedAreAllPairs(cfg: Config, trace: seq<Event>, n: nat)
    requires ExitsFit(trace, n, cfg.maxThreads)
    ensures Run(cfg, trace, n).matched == PairCount(trace, n)
  {
    var inv: (nat, SoundState) -> bool := (k: nat, s: SoundState) => AllMatched(cfg, trace, k, s);
    MatchSteps(cfg, trace, n);
    FoldKeeps<SoundState, Event>(Stepper(cfg), EMPTY, trace, n, inv);
  }

  /** `n` threads leave their guests one after the other, then the last one re-enters. */
  function Crowd(n: nat): (trace: seq<Event>)
    ensures |trace| == n && forall i :: 0 <= i < n ==> trace[i] == Exit(i, 0, 0, 0)
  {
    seq(n, i requires 0 <= i < n => Exit(i, 0, 0, 0))
  }

  function Min(a: nat, b: nat): nat
  {
    if a < b then a else b
  }

  /** One thread more than `m`, the last of which re-enters its guest. */
  function OverfullTrace(m: nat): (trace: seq<Event>)
    ensures |trace| == m + 2
  {
    Crowd(m + 1) + [Entry(m, 1)]
  }

  /** The first `n` threads are remembered, as far as there is room. */
  ghost predicate Remembers(cfg: Config, n: nat, s: SoundState)
  {
    s.exitStart.Keys == Below(Min(n, cfg.maxThreads)) && s.matched == 0 && s.dropped == 0
  }

  lemma ExitRemembered(cfg: Config, n: nat, s: SoundState)
    requires Remembers(cfg, n, s)
    ensures Remembers(cfg, n + 1, Step(cfg, s, Exit(n, 0, 0, 0)))
  {
    assert |s.exitStart| == |s.exitStart.Keys| == Min(n, cfg.maxThreads);
    PutKeys(s.exitStart, cfg.maxThreads, n, ExitState(0, KeyOf(cfg, Exit(n, 0, 0, 0))));
  }

  lemma PutKeys(m: map<nat, ExitState>, capacity: nat, k: nat, v: ExitState)
    ensures Put(m, capacity, k, v).Keys == if k in m || |m| < capacity then m.Keys + {k} else m.Keys
  {
  }

  lemma CrowdSteps(cfg: Config, m: nat)
    ensures forall k: nat, s: SoundState :: k < m + 1 && Remembers(cfg, k, s)
              ==> Remembers(cfg, k + 1, Stepper(cfg)(s, OverfullTrace(m)[k]))
  {
    forall k: nat, s: SoundState | k < m + 1 && Remembers(cfg, k, s)
      ensures Remembers(cfg, k + 1, Stepper(cfg)(s, OverfullTrace(m)[k]))
    {
      ExitRemembered(cfg, k, s);
    }
  }

  lemma CrowdFillsExitMap(cfg: Config, m: nat)
    ensures Remembers(cfg, m + 1, Run(cfg, OverfullTrace(m), m + 1))
  {
    var inv: (nat, SoundState) -> bool := (k: nat, s: SoundState) => Remembers(cfg, k, s);
    CrowdSteps(cfg, m);
    FoldKeeps<SoundState, Event>(Stepper(cfg), EMPTY, OverfullTrace(m), m + 1, inv);
  }

  lemma {:induction false} OpenBelow(trace: seq<Event>, n: nat, m: nat)
    requires n <= |trace| && forall i :: 0 <= i < n ==> trace[i].tid < m
    ensures OpenTids(trace, n) <= Below(m)
  {
    if n > 0 {
      OpenBelow(trace, n - 1, m);
    }
  }

  lemma OverfullTraceFits(m: nat)
    ensures ExitsFit(OverfullTrace(m), m + 2, m + 1)
  {
    var trace := OverfullTrace(m);
    forall k | 0 <= k <= m + 2 ensures |OpenTids(trace, k)| <= m + 1 {
      OpenBelow(trace, k, m + 1);
      SubsetSize(OpenTids(trace, k), Below(m + 1));
    }
  }

  lemma OverfullTraceHasAPair(m: nat)
    ensures PairCount(OverfullTrace(m), m + 2) > 0
  {
    assert OpenExit(OverfullTrace(m), m + 1, m) == Some(m);
    assert Paired(OverfullTrace(m), m + 1);
  }

  lemma UnknownEntry(cfg: Config, s: SoundState, e: Event)
    requires e.Entry? && e.tid !in s.exitStart
    ensures Step(cfg, s, e) == s
  {
  }

  /** One thread more than the exit map holds: a pair is lost and nothing records it. */
  lemma CrowdLosesAPair(cfg: Config)
    ensures var s := Run(cfg, OverfullTrace(cfg.maxThreads), cfg.maxThreads + 2); s.matched == 0 == s.dropped
  {
    var m := cfg.maxThreads;
    CrowdFillsExitMap(cfg, m);
    UnknownEntry(cfg, Run(cfg, OverfullTrace(m), m + 1), Entry(m, 1));
    LastStep(cfg, OverfullTrace(m), m + 1);
  }

  lemma LastStep(cfg: Config, trace: seq<Event>, n: nat)
    requires n < |trace|
    ensures Run(cfg, trace, n + 1) == Step(cfg, Run(cfg, trace, n), trace[n])
  {
  }

  /** The overflow flag watches only the histogram map. All pairs are matched in every
      trace with at most `exits` exits open at once exactly when the exit map can hold that many. */
  lemma ExitMapLossExactly(cfg: Config, exits: nat)
    ensures (forall trace: seq<Event> :: ExitsFit(trace, |trace|, exits)
               ==> Run(cfg, trace, |trace|).matched == PairCount(trace, |trace|))
            <==> exits <= cfg.maxThreads
  {
    if exits <= cfg.maxThreads {
      forall trace: seq<Event> | ExitsFit(trace, |trace|, exits)
        ensures Run(cfg, trace, |trace|).matched == PairCount(trace, |trace|)
      {
        MatchedAreAllPairs(cfg, trace, |trace|);
      }
    } else {
      var trace := OverfullTrace(cfg.maxThreads);
      CrowdLosesAPair(cfg);
      OverfullTraceHasAPair(cfg.maxThreads);
      OverfullTraceFits(cfg.maxThreads);
      assert Run(cfg, trace, |trace|).matched != PairCount(trace, |trace|);
    }
  }
}
