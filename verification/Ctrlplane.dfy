/** The control-plane gadget: on-CPU time and run-queue latency per cgroup, from the
    scheduler's wakeup and switch events. */
module Ctrlplane {
  import opened BpfMaps
  import opened Clock
  import opened HistMaps
  import opened Histograms
  import opened Options
  import opened Powers
  import opened Slots
  import opened Sums
  import opened Traces
  import P = Percentiles
  import RealSums

  datatype Config = Config(filter: bool, allowed: set<nat>, maxWakeups: nat, maxRunq: nat, maxOncpu: nat)

  datatype Event =
    | Wakeup(pid: nat, cgroup: nat, ts: Word)
    | Switch(cpu: nat, now: Word, pid: nat, cgroup: nat)

  /** The per-CPU record; `ts == 0` means nothing is being tracked. */
  datatype OnCpu = OnCpu(ts: Word, cgroup: nat)

  /** The maps, plus how many samples found no room. */
  datatype State = Maps(
    wakeup: map<nat, Word>, runq: Hists<nat>, oncpu: map<nat, nat>, cur: map<nat, OnCpu>, dropped: nat)

  const EMPTY := Maps(map[], map[], map[], map[], 0)

  predicate Allowed(cfg: Config, cgroup: nat)
  {
    !cfg.filter || cgroup in cfg.allowed
  }

  /** Unsigned 64-bit addition. */
  function Add64(a: nat, b: nat): (sum: nat)
    ensures sum < U64
  {
    (a + b) % U64
  }

  // ---- the handlers, as a function of the maps ----------------------------------------

  function RecordWakeup(cfg: Config, s: State, e: Event): State
    requires e.Wakeup?
  {
    if Allowed(cfg, e.cgroup) then s.(wakeup := Put(s.wakeup, cfg.maxWakeups, e.pid, e.ts)) else s
  }

  function Current(cur: map<nat, OnCpu>, cpu: nat): OnCpu
  {
    if cpu in cur then cur[cpu] else OnCpu(0, 0)
  }

  /** Add a slice to the accumulator of its cgroup. */
  function Accrue(oncpu: map<nat, nat>, maxOncpu: nat, cgroup: nat, delta: nat): map<nat, nat>
  {
    if cgroup in oncpu then oncpu[cgroup := Add64(oncpu[cgroup], delta)]
    else PutNew(oncpu, maxOncpu, cgroup, delta)
  }

  /** Attribute the slice that just ended to whoever was on the CPU. */
  function EndSlice(cfg: Config, s: State, e: Event): State
    requires e.Switch?
  {
    var cur := Current(s.cur, e.cpu);
    if cur.ts == 0 then s
    else s.(oncpu := Accrue(s.oncpu, cfg.maxOncpu, cur.cgroup, Delta(e.now, cur.ts)))
  }

  /** Run-queue latency of the task coming onto the CPU. */
  function TakeWakeup(cfg: Config, s: State, e: Event): (s': State)
    requires e.Switch? && Sound(s.runq)
    ensures Sound(s'.runq)
  {
    if !Allowed(cfg, e.cgroup) || e.pid !in s.wakeup then s
    else
      s.(runq := Aggregated(s.runq, cfg.maxRunq, e.cgroup, Log2Slot(Delta(e.now, s.wakeup[e.pid]))),
         wakeup := Delete(s.wakeup, e.pid),
         dropped := s.dropped + if Admits(s.runq, cfg.maxRunq, e.cgroup) then 0 else 1)
  }

  function StartSlice(cfg: Config, s: State, e: Event): State
    requires e.Switch?
  {
    s.(cur := s.cur[e.cpu := if Allowed(cfg, e.cgroup) then OnCpu(e.now, e.cgroup) else OnCpu(0, 0)])
  }

  function Step(cfg: Config, s: State, e: Event): (s': State)
    requires Sound(s.runq)
    ensures Sound(s'.runq)
  {
    if e.Wakeup? then RecordWakeup(cfg, s, e)
    else StartSlice(cfg, TakeWakeup(cfg, EndSlice(cfg, s, e), e), e)
  }

  type SoundState = s: State | Sound(s.runq) witness EMPTY

  function Stepper(cfg: Config): (SoundState, Event) -> SoundState
  {
    (s: SoundState, e: Event) => Step(cfg, s, e)
  }

  /** The maps after the first `n` events. */
  function Run(cfg: Config, trace: seq<Event>, n: nat): (s: SoundState)
    requires n <= |trace|
  {
    Fold<SoundState, Event>(Stepper(cfg), EMPTY, trace, n)
  }

  /** The loaded probe and its maps. */
  class Probe {
    const cfg: Config
    var wakeup: map<nat, Word>
    var runq: Hists<nat>
    var oncpu: map<nat, nat>
    var cur: map<nat, OnCpu>
    ghost var dropped: nat

    ghost function Snapshot(): State
      reads this
    {
      Maps(wakeup, runq, oncpu, cur, dropped)
    }

    constructor (cfg: Config)
      ensures this.cfg == cfg && Snapshot() == EMPTY
    {
      this.cfg := cfg;
      wakeup, runq, oncpu, cur := map[], map[], map[], map[];
      dropped := 0;
    }

    method OnWakeup(pid: nat, cgroup: nat, ts: Word)
      modifies this
      ensures Snapshot() == RecordWakeup(cfg, old(Snapshot()), Wakeup(pid, cgroup, ts))
    {
      if !Allowed(cfg, cgroup) {
        return;
      }
      wakeup := Put(wakeup, cfg.maxWakeups, pid, ts);
    }

    method OnSwitch(cpu: nat, now: Word, pid: nat, cgroup: nat)
      requires Sound(runq)
      modifies this
      ensures Snapshot() == Step(cfg, old(Snapshot()), Switch(cpu, now, pid, cgroup))
    {
      ghost var e := Switch(cpu, now, pid, cgroup);
      AttributeSlice(cpu, now, e);
      var ok := Allowed(cfg, cgroup);
      if ok {
        SampleRunq(now, pid, cgroup, e);
      }
      cur := cur[cpu := if ok then OnCpu(now, cgroup) else OnCpu(0, 0)];
    }

    method AttributeSlice(cpu: nat, now: Word, ghost e: Event)
      requires e.Switch? && e.cpu == cpu && e.now == now
      modifies this`oncpu
      ensures Snapshot() == EndSlice(cfg, old(Snapshot()), e)
    {
      var was := Current(cur, cpu);
      if was.ts != 0 {
        var delta := Delta(now, was.ts);
        if was.cgroup in oncpu {
          oncpu := oncpu[was.cgroup := Add64(oncpu[was.cgroup], delta)];
        } else {
          oncpu := PutNew(oncpu, cfg.maxOncpu, was.cgroup, delta);
        }
      }
    }

    method SampleRunq(now: Word, pid: nat, cgroup: nat, ghost e: Event)
      requires Sound(runq) && Allowed(cfg, cgroup)
      requires e.Switch? && e == Switch(e.cpu, now, pid, cgroup)
      modifies this`runq, this`wakeup, this`dropped
      ensures Snapshot() == TakeWakeup(cfg, old(Snapshot()), e)
    {
      if pid in wakeup {
        var recorded;
        runq, recorded := Count(runq, cfg.maxRunq, cgroup, Delta(now, wakeup[pid]));
        dropped := dropped + if recorded then 0 else 1;
        wakeup := Delete(wakeup, pid);
      }
    }
  }

  // ---- on-CPU time, from the trace alone ------------------------------------------------

  /** The latest switch on `cpu` among the first `n` events. */
  function LastSwitch(trace: seq<Event>, n: nat, cpu: nat): (x: Option<nat>)
    requires n <= |trace|
    ensures x.Some? ==> x.value < n && trace[x.value].Switch? && trace[x.value].cpu == cpu
  {
    if n == 0 then None
    else if trace[n - 1].Switch? && trace[n - 1].cpu == cpu then Some(n - 1)
    else LastSwitch(trace, n - 1, cpu)
  }

  /** The earliest switch on `cpu` among the first `n` events. */
  function FirstSwitch(trace: seq<Event>, n: nat, cpu: nat): (x: Option<nat>)
    requires n <= |trace|
    ensures x.Some? ==> x.value < n && trace[x.value].Switch? && trace[x.value].cpu == cpu
    ensures x.Some? <==> LastSwitch(trace, n, cpu).Some?
  {
    if n == 0 then None
    else
      var earlier := FirstSwitch(trace, n - 1, cpu);
      if earlier.Some? then earlier
      else if trace[n - 1].Switch? && trace[n - 1].cpu == cpu then Some(n - 1)
      else None
  }

  /** Positive timestamps that never go back on a CPU. */
  ghost predicate Timely(trace: seq<Event>)
  {
    && (forall i :: 0 <= i < |trace| && trace[i].Switch? ==> 0 < trace[i].now)
    && (forall i, j :: 0 <= i < j < |trace| && trace[i].Switch? && trace[j].Switch? && trace[i].cpu == trace[j].cpu
          ==> trace[i].now <= trace[j].now)
  }

  /** The length of the slice that the switch at `e` ends, if it is one of `cgroup`. */
  function SliceAt(cfg: Config, trace: seq<Event>, e: nat, cgroup: nat): nat
    requires e < |trace|
  {
    if !trace[e].Switch? then 0
    else
      var x := LastSwitch(trace, e, trace[e].cpu);
      if x.Some? && trace[x.value].cgroup == cgroup && Allowed(cfg, cgroup) && trace[x.value].now <= trace[e].now
      then trace[e].now - trace[x.value].now
      else 0
  }

  /** All the slices of `cgroup` that ended within the first `n` events. */
  function SliceSum(cfg: Config, trace: seq<Event>, n: nat, cgroup: nat): nat
    requires n <= |trace|
  {
    if n == 0 then 0 else SliceSum(cfg, trace, n - 1, cgroup) + SliceAt(cfg, trace, n - 1, cgroup)
  }

  /** From the first to the last switch of a CPU. */
  function CpuSpan(trace: seq<Event>, n: nat, cpu: nat): nat
    requires n <= |trace|
  {
    var first, last := FirstSwitch(trace, n, cpu), LastSwitch(trace, n, cpu);
    if first.Some? && trace[first.value].now <= trace[last.value].now
    then trace[last.value].now - trace[first.value].now
    else 0
  }

  ghost function Cgroups(trace: seq<Event>): set<nat>
  {
    set i | 0 <= i < |trace| :: trace[i].cgroup
  }

  ghost function Cpus(trace: seq<Event>): set<nat>
  {
    set i | 0 <= i < |trace| && trace[i].Switch? :: trace[i].cpu
  }

  /** What the per-CPU record should hold after the first `n` events. */
  function LastSlice(cfg: Config, trace: seq<Event>, n: nat, cpu: nat): OnCpu
    requires n <= |trace|
  {
    var x := LastSwitch(trace, n, cpu);
    if x.Some? && Allowed(cfg, trace[x.value].cgroup) then OnCpu(trace[x.value].now, trace[x.value].cgroup)
    else OnCpu(0, 0)
  }

  lemma CurOfStep(cfg: Config, s: SoundState, e: Event)
    ensures Step(cfg, s, e).cur == if e.Switch? then StartSlice(cfg, s, e).cur else s.cur
  {
  }

  /** The per-CPU record names the task of the last switch, if it is allowed. */
  lemma CurrentIsLastSwitch(cfg: Config, trace: seq<Event>, n: nat, cpu: nat)
    requires n <= |trace|
    ensures Current(Run(cfg, trace, n).cur, cpu) == LastSlice(cfg, trace, n, cpu)
  {
    var inv: (nat, SoundState) -> bool :=
      (k: nat, s: SoundState) => k <= |trace| && Current(s.cur, cpu) == LastSlice(cfg, trace, k, cpu);
    forall k: nat, s: SoundState | k < n && inv(k, s) ensures inv(k + 1, Stepper(cfg)(s, trace[k])) {
      CurOfStep(cfg, s, trace[k]);
    }
    FoldKeeps<SoundState, Event>(Stepper(cfg), EMPTY, trace, n, inv);
  }

  lemma OncpuOfStep(cfg: Config, s: State, e: Event)
    requires Sound(s.runq)
    ensures Step(cfg, s, e).oncpu == if e.Switch? then EndSlice(cfg, s, e).oncpu else s.oncpu
  {}

  /** The slice ended by the switch at `n`, if the task it was given to is tracked. */
  function EndedSlice(cfg: Config, trace: seq<Event>, n: nat): (x: Option<nat>)
    requires n < |trace|
    ensures x.Some? ==> x.value < n && trace[x.value].Switch? && trace[n].Switch?
    ensures x.Some? ==> trace[x.value].cpu == trace[n].cpu && Allowed(cfg, trace[x.value].cgroup)
  {
    var x := if trace[n].Switch? then LastSwitch(trace, n, trace[n].cpu) else None;
    if x.Some? && Allowed(cfg, trace[x.value].cgroup) then x else None
  }

  /** The accumulators, replayed from the trace. */
  function Replay(cfg: Config, trace: seq<Event>, n: nat): map<nat, nat>
    requires n <= |trace|
  {
    if n == 0 then map[]
    else
      var x := EndedSlice(cfg, trace, n - 1);
      if x.None? then Replay(cfg, trace, n - 1)
      else Accrue(Replay(cfg, trace, n - 1), cfg.maxOncpu, trace[x.value].cgroup,
                  Delta(trace[n - 1].now, trace[x.value].now))
  }

  lemma SliceReplayed(cfg: Config, trace: seq<Event>, n: nat, s: SoundState)
    requires n < |trace| && Timely(trace) && Replayed(cfg, trace, n, s)
    ensures Replayed(cfg, trace, n + 1, Step(cfg, s, trace[n]))
  {
    var e := trace[n];
    OncpuOfStep(cfg, s, e);
    if e.Switch? {
      assert Tracked(cfg, trace, n, s.cur, e.cpu);
    }
    AllTracked(cfg, trace, n, s, n + 1, Step(cfg, s, e));
  }

  lemma AllTracked(cfg: Config, trace: seq<Event>, n: nat, s: SoundState, m: nat, s': SoundState)
    requires n < |trace| && m == n + 1 && s' == Step(cfg, s, trace[n])
    requires forall cpu :: Tracked(cfg, trace, n, s.cur, cpu)
    ensures forall cpu :: Tracked(cfg, trace, m, s'.cur, cpu)
  {
    CurOfStep(cfg, s, trace[n]);
    forall cpu ensures Tracked(cfg, trace, m, s'.cur, cpu) {
      assert Tracked(cfg, trace, n, s.cur, cpu);
    }
  }

  /** The record of `cpu` is what the first `n` events say. */
  ghost predicate Tracked(cfg: Config, trace: seq<Event>, n: nat, cur: map<nat, OnCpu>, cpu: nat)
    requires n <= |trace|
  {
    Current(cur, cpu) == LastSlice(cfg, trace, n, cpu)
  }

  ghost predicate Replayed(cfg: Config, trace: seq<Event>, k: nat, s: SoundState)
  {
    && k <= |trace| && s.oncpu == Replay(cfg, trace, k)
    && forall cpu :: Tracked(cfg, trace, k, s.cur, cpu)
  }

  lemma ReplayStart(cfg: Config, trace: seq<Event>)
    ensures Replayed(cfg, trace, 0, EMPTY)
  {
  }

  lemma ReplaySteps(cfg: Config, trace: seq<Event>, n: nat)
    requires n <= |trace| && Timely(trace)
    ensures forall k: nat, s: SoundState :: k < n && Replayed(cfg, trace, k, s)
              ==> Replayed(cfg, trace, k + 1, Stepper(cfg)(s, trace[k]))
  {
    forall k: nat, s: SoundState | k < n && Replayed(cfg, trace, k, s)
      ensures Replayed(cfg, trace, k + 1, Stepper(cfg)(s, trace[k]))
    {
      SliceReplayed(cfg, trace, k, s);
    }
  }

  lemma OncpuIsReplay(cfg: Config, trace: seq<Event>, n: nat)
    requires n <= |trace| && Timely(trace)
    ensures Run(cfg, trace, n).oncpu == Replay(cfg, trace, n)
  {
    var inv: (nat, SoundState) -> bool := (k: nat, s: SoundState) => Replayed(cfg, trace, k, s);
    ReplayStart(cfg, trace);
    ReplaySteps(cfg, trace, n);
    FoldKeeps<SoundState, Event>(Stepper(cfg), EMPTY, trace, n, inv);
  }

  /** The cgroups with a slice that ended within the first `n` events; under the filter only
      allowed ones have any. */
  ghost function SliceCgroups(cfg: Config, trace: seq<Event>, n: nat): set<nat>
    requires n <= |trace|
  {
    if n == 0 then {}
    else
      var x := EndedSlice(cfg, trace, n - 1);
      SliceCgroups(cfg, trace, n - 1) + if x.Some? then {trace[x.value].cgroup} else {}
  }

  lemma {:induction false} SliceCgroupsGrow(cfg: Config, trace: seq<Event>, k: nat, n: nat)
    requires k <= n <= |trace|
    ensures SliceCgroups(cfg, trace, k) <= SliceCgroups(cfg, trace, n)
  {
    if k < n {
      SliceCgroupsGrow(cfg, trace, k, n - 1);
    }
  }

  lemma {:induction false} SliceCgroupsAllowed(cfg: Config, trace: seq<Event>, n: nat)
    requires n <= |trace| && cfg.filter
    ensures SliceCgroups(cfg, trace, n) <= cfg.allowed
  {
    if n > 0 {
      SliceCgroupsAllowed(cfg, trace, n - 1);
    }
  }

  lemma {:induction false} AccumulatorsBounded(cfg: Config, trace: seq<Event>, n: nat)
    requires n <= |trace|
    ensures Replay(cfg, trace, n).Keys <= SliceCgroups(cfg, trace, n) && |Replay(cfg, trace, n)| <= cfg.maxOncpu
  {
    if n > 0 {
      AccumulatorsBounded(cfg, trace, n - 1);
      var x := EndedSlice(cfg, trace, n - 1);
      if x.Some? {
        AccrueSize(Replay(cfg, trace, n - 1), cfg.maxOncpu, trace[x.value].cgroup,
                   Delta(trace[n - 1].now, trace[x.value].now));
      }
    }
  }

  lemma AccrueSize(oncpu: map<nat, nat>, maxOncpu: nat, cgroup: nat, delta: nat)
    requires |oncpu| <= maxOncpu
    ensures |Accrue(oncpu, maxOncpu, cgroup, delta)| <= maxOncpu
    ensures Accrue(oncpu, maxOncpu, cgroup, delta).Keys <= oncpu.Keys + {cgroup}
  {
    if cgroup in oncpu {
      assert oncpu[cgroup := Add64(oncpu[cgroup], delta)].Keys == oncpu.Keys;
      assert |oncpu[cgroup := Add64(oncpu[cgroup], delta)].Keys| == |oncpu.Keys|;
    } else {
      PutBounded(oncpu, maxOncpu, cgroup, delta);
    }
  }

  function Accumulated(oncpu: map<nat, nat>, cgroup: nat): nat
  {
    if cgroup in oncpu then oncpu[cgroup] else 0
  }

  lemma AccrueAt(oncpu: map<nat, nat>, maxOncpu: nat, cgroup: nat, delta: nat, universe: set<nat>, other: nat)
    requires oncpu.Keys <= universe && cgroup in universe && |universe| <= maxOncpu
    requires other == cgroup ==> Accumulated(oncpu, cgroup) + delta < U64
    ensures Accumulated(Accrue(oncpu, maxOncpu, cgroup, delta), other)
            == Accumulated(oncpu, other) + if other == cgroup then delta else 0
  {
    PutFits(oncpu, maxOncpu, cgroup, delta, universe);
  }

  lemma {:induction false} ReplayIsSlices(cfg: Config, trace: seq<Event>, n: nat, cgroup: nat, universe: set<nat>)
    requires n <= |trace| && Timely(trace)
    requires SliceCgroups(cfg, trace, n) <= universe && |universe| <= cfg.maxOncpu
    requires SliceSum(cfg, trace, n, cgroup) < U64
    ensures Accumulated(Replay(cfg, trace, n), cgroup) == SliceSum(cfg, trace, n, cgroup)
  {
    if n > 0 {
      ReplayIsSlices(cfg, trace, n - 1, cgroup, universe);
      AccumulatorsBounded(cfg, trace, n - 1);
      var x := EndedSlice(cfg, trace, n - 1);
      if x.Some? {
        var owner := trace[x.value];
        AccrueAt(Replay(cfg, trace, n - 1), cfg.maxOncpu, owner.cgroup, trace[n - 1].now - owner.now,
                 universe, cgroup);
      }
    }
  }

  /** Each accumulator is the sum of its cgroup's slices, as long as that fits 64 bits: all
      of them when the filter is off, those of the allowed cgroups when it is on. */
  lemma AccumulatorsAreSlices(cfg: Config, trace: seq<Event>, n: nat, cgroup: nat)
    requires n <= |trace| && Timely(trace) && |SliceCgroups(cfg, trace, n)| <= cfg.maxOncpu
    requires SliceSum(cfg, trace, n, cgroup) < U64
    ensures Accumulated(Run(cfg, trace, n).oncpu, cgroup) == SliceSum(cfg, trace, n, cgroup)
  {
    OncpuIsReplay(cfg, trace, n);
    ReplayIsSlices(cfg, trace, n, cgroup, SliceCgroups(cfg, trace, n));
  }

  // ---- conservation ---------------------------------------------------------------------

  function SliceSums(cfg: Config, trace: seq<Event>, n: nat): nat -> nat
    requires n <= |trace|
  {
    cgroup => SliceSum(cfg, trace, n, cgroup)
  }

  function CpuSpans(trace: seq<Event>, n: nat): nat -> nat
    requires n <= |trace|
  {
    cpu => CpuSpan(trace, n, cpu)
  }

  /** With the filter off, the slices of all cgroups add up to the time between the first
      and the last switch of every CPU: no time is lost and none is counted twice. */
  lemma {:induction false} OnCpuConserved(cfg: Config, trace: seq<Event>, n: nat)
    requires n <= |trace| && Timely(trace) && !cfg.filter
    ensures SumOver(Cgroups(trace), SliceSums(cfg, trace, n)) == SumOver(Cpus(trace), CpuSpans(trace, n))
  {
    if n == 0 {
      SumOverZero(Cgroups(trace), SliceSums(cfg, trace, 0));
      SumOverZero(Cpus(trace), CpuSpans(trace, 0));
    } else {
      OnCpuConserved(cfg, trace, n - 1);
      SlicesStep(cfg, trace, n - 1);
      SpansStep(trace, n - 1);
    }
  }

  /** The time since the previous switch on the same CPU, for a switch at `e`. */
  function Elapsed(trace: seq<Event>, e: nat): nat
    requires e < |trace|
  {
    if !trace[e].Switch? then 0
    else
      var x := LastSwitch(trace, e, trace[e].cpu);
      if x.Some? && trace[x.value].now <= trace[e].now then trace[e].now - trace[x.value].now else 0
  }

  lemma SlicesStep(cfg: Config, trace: seq<Event>, n: nat)
    requires n < |trace| && !cfg.filter
    ensures SumOver(Cgroups(trace), SliceSums(cfg, trace, n + 1))
            == SumOver(Cgroups(trace), SliceSums(cfg, trace, n)) + Elapsed(trace, n)
  {
    var f, g := SliceSums(cfg, trace, n), SliceSums(cfg, trace, n + 1);
    if trace[n].Switch? && LastSwitch(trace, n, trace[n].cpu).Some? {
      var owner := trace[LastSwitch(trace, n, trace[n].cpu).value].cgroup;
      assert g(owner) == f(owner) + Elapsed(trace, n);
      SumOverBump(Cgroups(trace), f, g, owner);
    } else {
      SumOverSame(Cgroups(trace), f, g);
    }
  }

  lemma SpansStep(trace: seq<Event>, n: nat)
    requires n < |trace| && Timely(trace)
    ensures SumOver(Cpus(trace), CpuSpans(trace, n + 1)) == SumOver(Cpus(trace), CpuSpans(trace, n)) + Elapsed(trace, n)
  {
    var f, g := CpuSpans(trace, n), CpuSpans(trace, n + 1);
    if trace[n].Switch? {
      SpanGrows(trace, n);
      SumOverBump(Cpus(trace), f, g, trace[n].cpu);
    } else {
      SumOverSame(Cpus(trace), f, g);
    }
  }

  lemma {:induction false} FirstNotAfterLast(trace: seq<Event>, n: nat, cpu: nat)
    requires n <= |trace|
    ensures var first, last := FirstSwitch(trace, n, cpu), LastSwitch(trace, n, cpu);
            first.Some? ==> first.value <= last.value
  {
    if n > 0 {
      FirstNotAfterLast(trace, n - 1, cpu);
    }
  }

  /** A further switch on a CPU extends its span by the slice it ends. */
  lemma SpanGrows(trace: seq<Event>, n: nat)
    requires n < |trace| && Timely(trace) && trace[n].Switch?
    ensures CpuSpan(trace, n + 1, trace[n].cpu) == CpuSpan(trace, n, trace[n].cpu) + Elapsed(trace, n)
  {
    FirstNotAfterLast(trace, n, trace[n].cpu);
  }

  function AccumulatedAt(oncpu: map<nat, nat>): nat -> nat
  {
    cgroup => Accumulated(oncpu, cgroup)
  }

  lemma {:induction false} TermAtMostSum(s: set<nat>, f: nat -> nat, x: nat)
    requires x in s
    ensures f(x) <= SumOver(s, f)
  {
    SumOverTake(s, f, x);
  }

  /** The emitted accumulators add up to the CPUs' tracked time, whenever that time fits
      the 64-bit counter. */
  lemma AccumulatorsConserveTime(cfg: Config, trace: seq<Event>)
    requires Timely(trace) && !cfg.filter && |SliceCgroups(cfg, trace, |trace|)| <= cfg.maxOncpu
    requires SumOver(Cpus(trace), CpuSpans(trace, |trace|)) < U64
    ensures SumOver(Cgroups(trace), AccumulatedAt(Run(cfg, trace, |trace|).oncpu))
              == SumOver(Cpus(trace), CpuSpans(trace, |trace|))
  {
    var n := |trace|;
    OnCpuConserved(cfg, trace, n);
    forall cgroup | cgroup in Cgroups(trace)
      ensures AccumulatedAt(Run(cfg, trace, |trace|).oncpu)(cgroup) == SliceSums(cfg, trace, n)(cgroup)
    {
      TermAtMostSum(Cgroups(trace), SliceSums(cfg, trace, n), cgroup);
      AccumulatorsAreSlices(cfg, trace, n, cgroup);
    }
    SumOverSame(Cgroups(trace), AccumulatedAt(Run(cfg, trace, |trace|).oncpu), SliceSums(cfg, trace, n));
  }

  // ---- a full accumulator map ----------------------------------------------------------------------

  /** Every accumulator that fits its counter is the sum of its cgroup's slices. */
  ghost predicate TimeKept(cfg: Config, trace: seq<Event>)
  {
    forall cgroup :: SliceSum(cfg, trace, |trace|, cgroup) < U64
      ==> Accumulated(Run(cfg, trace, |trace|).oncpu, cgroup) == SliceSum(cfg, trace, |trace|, cgroup)
  }

  /** On each of `m` CPUs a cgroup of its own runs for a unit of time. */
  function Parade(m: nat): (trace: seq<Event>)
    ensures |trace| == 2 * m && forall i :: 0 <= i < |trace| ==> trace[i] == ParadeEvent(i)
  {
    seq(2 * m, i requires 0 <= i < 2 * m => ParadeEvent(i))
  }

  function ParadeEvent(i: nat): Event
  {
    Switch(i / 2, if i % 2 == 0 then 1 else 2, 0, i / 2)
  }

  lemma {:induction false} NoSwitchYet(trace: seq<Event>, n: nat, cpu: nat)
    requires n <= |trace| && forall i :: 0 <= i < n ==> trace[i].Switch? && trace[i].cpu != cpu
    ensures LastSwitch(trace, n, cpu) == None
  {
    if n > 0 {
      NoSwitchYet(trace, n - 1, cpu);
    }
  }

  /** Two switches on a CPU of their own end one slice. */
  lemma PairSlice(cfg: Config, trace: seq<Event>, k: nat, c: nat, cgroup: nat)
    requires !cfg.filter && k + 2 <= |trace| && LastSwitch(trace, k, c) == None
    requires trace[k] == Switch(c, 1, 0, c) && trace[k + 1] == Switch(c, 2, 0, c)
    ensures SliceCgroups(cfg, trace, k + 2) == SliceCgroups(cfg, trace, k) + {c}
    ensures SliceSum(cfg, trace, k + 2, cgroup) == SliceSum(cfg, trace, k, cgroup) + if cgroup == c then 1 else 0
  {
    assert LastSwitch(trace, k + 1, c) == Some(k);
    assert EndedSlice(cfg, trace, k) == None && EndedSlice(cfg, trace, k + 1) == Some(k);
    assert SliceCgroups(cfg, trace, k + 1) == SliceCgroups(cfg, trace, k);
  }

  /** The two switches of the `j`-th CPU, its first. */
  ghost predicate RunsOnce(trace: seq<Event>, j: nat, k: nat)
  {
    && k == 2 * j && k + 2 <= |trace| && LastSwitch(trace, k, j) == None
    && trace[k] == Switch(j, 1, 0, j) && trace[k + 1] == Switch(j, 2, 0, j)
  }

  lemma ParadePair(m: nat, j: nat)
    requires j < m
    ensures RunsOnce(Parade(m), j, 2 * j)
  {
    var trace := Parade(m);
    assert trace[2 * j] == ParadeEvent(2 * j) && trace[2 * j + 1] == ParadeEvent(2 * j + 1);
    NoSwitchYet(trace, 2 * j, j);
  }

  /** After `n` CPUs: a slice of one unit in each of the first cgroups. */
  ghost predicate Paraded(cfg: Config, trace: seq<Event>, n: nat, k: nat, cgroup: nat)
  {
    && k <= |trace| && SliceCgroups(cfg, trace, k) == Below(n)
    && SliceSum(cfg, trace, k, cgroup) == if cgroup < n then 1 else 0
  }

  lemma ParadeStart(cfg: Config, trace: seq<Event>, cgroup: nat)
    ensures Paraded(cfg, trace, 0, 0, cgroup)
  {
  }

  lemma ParadeStep(cfg: Config, trace: seq<Event>, j: nat, i: nat, n: nat, k: nat, cgroup: nat)
    requires !cfg.filter && RunsOnce(trace, j, i) && Paraded(cfg, trace, j, i, cgroup) && n == j + 1 && k == i + 2
    ensures Paraded(cfg, trace, n, k, cgroup)
  {
    PairSlice(cfg, trace, i, j, cgroup);
    BelowNext(j);
  }

  lemma {:induction false} ParadeSlices(cfg: Config, trace: seq<Event>, n: nat, k: nat, cgroup: nat)
    requires !cfg.filter && k == 2 * n && forall j: nat, i: nat :: j < n && i == 2 * j ==> RunsOnce(trace, j, i)
    ensures Paraded(cfg, trace, n, k, cgroup)
  {
    if n == 0 {
      ParadeStart(cfg, trace, cgroup);
    } else {
      var j, i := n - 1, k - 2;
      ParadeSlices(cfg, trace, j, i, cgroup);
      ParadeStep(cfg, trace, j, i, n, k, cgroup);
    }
  }

  lemma BelowNext(n: nat)
    ensures Below(n + 1) == Below(n) + {n}
  {
  }

  lemma ParadeIs(cfg: Config, m: nat, cgroup: nat)
    requires !cfg.filter
    ensures Paraded(cfg, Parade(m), m, |Parade(m)|, cgroup)
  {
    forall j: nat, i: nat | j < m && i == 2 * j ensures RunsOnce(Parade(m), j, i) {
      ParadePair(m, j);
    }
    ParadeSlices(cfg, Parade(m), m, 2 * m, cgroup);
  }

  lemma ParadeTimely(m: nat)
    ensures Timely(Parade(m))
  {
    var trace := Parade(m);
    forall i | 0 <= i < |trace| ensures trace[i] == ParadeEvent(i) {
    }
    forall i, j | 0 <= i < j < |trace| && trace[i].cpu == trace[j].cpu ensures trace[i].now <= trace[j].now {
      assert i / 2 == j / 2;
    }
  }

  lemma SomeMissing(oncpu: map<nat, nat>, m: nat) returns (cgroup: nat)
    requires |oncpu| < m
    ensures cgroup < m && cgroup !in oncpu
  {
    assert |oncpu| == |oncpu.Keys|;
    if forall c: nat :: c < m ==> c in oncpu {
      SubsetSize(Below(m), oncpu.Keys);
    }
    cgroup :| cgroup < m && cgroup !in oncpu;
  }

  /** One cgroup more than the map holds has time and no accumulator. */
  lemma ParadeLosesTime(cfg: Config)
    requires !cfg.filter
    ensures !TimeKept(cfg, Parade(cfg.maxOncpu + 1))
  {
    var m := cfg.maxOncpu + 1;
    var trace := Parade(m);
    ParadeTimely(m);
    OncpuIsReplay(cfg, trace, |trace|);
    AccumulatorsBounded(cfg, trace, |trace|);
    var cgroup := SomeMissing(Run(cfg, trace, |trace|).oncpu, m);
    ParadeIs(cfg, m, cgroup);
  }

  /** Without a filter, on-CPU time is kept in every trace with slices of at most `cgroups` cgroups
      exactly when the map holds that many; no flag of the output reports the loss. */
  lemma OncpuLossExactly(cfg: Config, cgroups: nat)
    requires !cfg.filter
    ensures (forall trace: seq<Event> :: Timely(trace) && |SliceCgroups(cfg, trace, |trace|)| <= cgroups
               ==> TimeKept(cfg, trace))
            <==> cgroups <= cfg.maxOncpu
  {
    if cgroups <= cfg.maxOncpu {
      forall trace: seq<Event> | Timely(trace) && |SliceCgroups(cfg, trace, |trace|)| <= cgroups
        ensures TimeKept(cfg, trace)
      {
        KeepsTime(cfg, trace);
      }
    } else {
      var trace := Parade(cfg.maxOncpu + 1);
      ParadeLosesTime(cfg);
      ParadeTimely(cfg.maxOncpu + 1);
      ParadeIs(cfg, cfg.maxOncpu + 1, 0);
    }
  }

  lemma KeepsTime(cfg: Config, trace: seq<Event>)
    requires Timely(trace) && |SliceCgroups(cfg, trace, |trace|)| <= cfg.maxOncpu
    ensures TimeKept(cfg, trace)
  {
    forall cgroup: nat | SliceSum(cfg, trace, |trace|, cgroup) < U64
      ensures Accumulated(Run(cfg, trace, |trace|).oncpu, cgroup) == SliceSum(cfg, trace, |trace|, cgroup)
    {
      AccumulatorsAreSlices(cfg, trace, |trace|, cgroup);
    }
  }

  /** With the filter on no time is ever lost if the map holds the allowed cgroups. */
  lemma FilteredTimeKept(cfg: Config, trace: seq<Event>)
    requires Timely(trace) && cfg.filter && |cfg.allowed| <= cfg.maxOncpu
    ensures TimeKept(cfg, trace)
  {
    SliceCgroupsAllowed(cfg, trace, |trace|);
    SubsetSize(SliceCgroups(cfg, trace, |trace|), cfg.allowed);
    KeepsTime(cfg, trace);
  }

  // ---- run-queue latency, offline ----------------------------------------------------------------

  /** The latest stored wakeup of `pid` among the first `n` events that no switch has consumed. */
  function OpenWakeup(cfg: Config, trace: seq<Event>, n: nat, pid: nat): (x: Option<nat>)
    requires n <= |trace|
    ensures x.Some? ==> x.value < n && trace[x.value].Wakeup? && trace[x.value].pid == pid
  {
    if n == 0 then None
    else
      var e := trace[n - 1];
      if e.pid != pid || !Allowed(cfg, e.cgroup) then OpenWakeup(cfg, trace, n - 1, pid)
      else if e.Wakeup? then Some(n - 1)
      else None
  }

  /** The switch at `e` brings in a task with a stored wakeup. */
  predicate Sampled(cfg: Config, trace: seq<Event>, e: nat)
    requires e < |trace|
  {
    trace[e].Switch? && Allowed(cfg, trace[e].cgroup) && OpenWakeup(cfg, trace, e, trace[e].pid).Some?
  }

  /** How long the task that the sampled switch at `e` brings in has waited; should the clock have
      gone back, what is missing to 2^64. */
  function LatencyOf(cfg: Config, trace: seq<Event>, e: nat): Word
    requires e < |trace| && Sampled(cfg, trace, e)
  {
    var ts, now := trace[OpenWakeup(cfg, trace, e, trace[e].pid).value].ts, trace[e].now;
    if ts <= now then now - ts else U64 - (ts - now)
  }

  predicate RunqSampleAt(cfg: Config, trace: seq<Event>, e: nat, cgroup: nat, slot: nat)
    requires e < |trace|
  {
    Sampled(cfg, trace, e) && trace[e].cgroup == cgroup && Log2Slot(LatencyOf(cfg, trace, e)) == slot
  }

  function RunqCount(cfg: Config, trace: seq<Event>, n: nat, cgroup: nat, slot: nat): nat
    requires n <= |trace|
  {
    if n == 0 then 0
    else RunqCount(cfg, trace, n - 1, cgroup, slot) + if RunqSampleAt(cfg, trace, n - 1, cgroup, slot) then 1 else 0
  }

  /** The tasks with an open wakeup after the first `n` events. */
  ghost function OpenPids(cfg: Config, trace: seq<Event>, n: nat): (open: set<nat>)
    requires n <= |trace|
    ensures forall pid :: pid in open <==> OpenWakeup(cfg, trace, n, pid).Some?
  {
    if n == 0 then {}
    else
      var e, before := trace[n - 1], OpenPids(cfg, trace, n - 1);
      if !Allowed(cfg, e.cgroup) then before
      else if e.Wakeup? then before + {e.pid}
      else before - {e.pid}
  }

  /** At no time among the first `n` events are more allowed wakeups open than `capacity`. */
  ghost predicate WakeupsFit(cfg: Config, trace: seq<Event>, n: nat, capacity: nat)
  {
    n <= |trace| && forall m :: 0 <= m <= n ==> |OpenPids(cfg, trace, m)| <= capacity
  }

  /** The cgroups that the first `n` events have run-queue samples for; under the filter only
      allowed ones have any. */
  ghost function RunqCgroups(cfg: Config, trace: seq<Event>, n: nat): set<nat>
    requires n <= |trace|
  {
    if n == 0 then {}
    else RunqCgroups(cfg, trace, n - 1) + if Sampled(cfg, trace, n - 1) then {trace[n - 1].cgroup} else {}
  }

  lemma {:induction false} RunqCgroupsGrow(cfg: Config, trace: seq<Event>, k: nat, n: nat)
    requires k <= n <= |trace|
    ensures RunqCgroups(cfg, trace, k) <= RunqCgroups(cfg, trace, n)
  {
    if k < n {
      RunqCgroupsGrow(cfg, trace, k, n - 1);
    }
  }

  lemma {:induction false} RunqCgroupsAllowed(cfg: Config, trace: seq<Event>, n: nat)
    requires n <= |trace| && cfg.filter
    ensures RunqCgroups(cfg, trace, n) <= cfg.allowed
  {
    if n > 0 {
      RunqCgroupsAllowed(cfg, trace, n - 1);
    }
  }

  /** Neither map ever refuses an entry: no more wakeups are open at once, and no more cgroups have
      samples, than the maps hold. */
  ghost predicate Fits(cfg: Config, trace: seq<Event>, n: nat)
  {
    WakeupsFit(cfg, trace, n, cfg.maxWakeups) && |RunqCgroups(cfg, trace, n)| <= cfg.maxRunq
  }

  lemma FitsBefore(cfg: Config, trace: seq<Event>, k: nat, n: nat)
    requires k <= n && Fits(cfg, trace, n)
    ensures Fits(cfg, trace, k)
  {
    RunqCgroupsGrow(cfg, trace, k, n);
    SubsetSize(RunqCgroups(cfg, trace, k), RunqCgroups(cfg, trace, n));
  }

  /** With the filter on, only the wakeups can fail to fit a map that holds the allowed cgroups. */
  lemma FilteredFits(cfg: Config, trace: seq<Event>, n: nat)
    requires cfg.filter && |cfg.allowed| <= cfg.maxRunq && WakeupsFit(cfg, trace, n, cfg.maxWakeups)
    ensures Fits(cfg, trace, n)
  {
    RunqCgroupsAllowed(cfg, trace, n);
    SubsetSize(RunqCgroups(cfg, trace, n), cfg.allowed);
  }

  ghost predicate PendingAt(trace: seq<Event>, wakeup: map<nat, Word>, pid: nat, x: Option<nat>)
  {
    if x.Some? then
      x.value < |trace| && trace[x.value].Wakeup? && pid in wakeup && wakeup[pid] == trace[x.value].ts
    else pid !in wakeup
  }

  lemma WakeupOfStep(cfg: Config, s: State, e: Event)
    requires Sound(s.runq)
    ensures Step(cfg, s, e).wakeup
            == if !Allowed(cfg, e.cgroup) then s.wakeup
               else if e.Wakeup? then Put(s.wakeup, cfg.maxWakeups, e.pid, e.ts)
               else Delete(s.wakeup, e.pid)
  {
    if e.Switch? && e.pid !in s.wakeup {
      assert Delete(s.wakeup, e.pid) == s.wakeup;
    }
  }

  /** The stored wakeup of every task is its open one. */
  ghost predicate Pending(cfg: Config, trace: seq<Event>, n: nat, s: SoundState)
  {
    n <= |trace| && forall pid :: PendingAt(trace, s.wakeup, pid, OpenWakeup(cfg, trace, n, pid))
  }

  lemma PendingKeys(cfg: Config, trace: seq<Event>, n: nat, s: SoundState)
    requires Pending(cfg, trace, n, s)
    ensures s.wakeup.Keys == OpenPids(cfg, trace, n)
  {
    forall pid ensures pid in s.wakeup.Keys <==> pid in OpenPids(cfg, trace, n) {
      assert PendingAt(trace, s.wakeup, pid, OpenWakeup(cfg, trace, n, pid));
    }
  }

  lemma WakeupHasRoom(cfg: Config, trace: seq<Event>, n: nat, s: SoundState)
    requires n < |trace| && trace[n].Wakeup? && Allowed(cfg, trace[n].cgroup) && Pending(cfg, trace, n, s)
    requires |OpenPids(cfg, trace, n + 1)| <= cfg.maxWakeups
    ensures |s.wakeup.Keys + {trace[n].pid}| <= cfg.maxWakeups
  {
    PendingKeys(cfg, trace, n, s);
  }

  lemma PendingAfter(cfg: Config, trace: seq<Event>, n: nat, wakeup: map<nat, Word>, m: nat, after: map<nat, Word>)
    requires n < |trace| && m == n + 1
    requires after == if !Allowed(cfg, trace[n].cgroup) then wakeup
                      else if trace[n].Wakeup? then wakeup[trace[n].pid := trace[n].ts]
                      else Delete(wakeup, trace[n].pid)
    requires forall pid :: PendingAt(trace, wakeup, pid, OpenWakeup(cfg, trace, n, pid))
    ensures forall pid :: PendingAt(trace, after, pid, OpenWakeup(cfg, trace, m, pid))
  {
    forall pid ensures PendingAt(trace, after, pid, OpenWakeup(cfg, trace, m, pid)) {
      assert PendingAt(trace, wakeup, pid, OpenWakeup(cfg, trace, n, pid));
    }
  }

  lemma StepPending(cfg: Config, trace: seq<Event>, s: SoundState, n: nat)
    requires n < |trace| && Pending(cfg, trace, n, s) && |OpenPids(cfg, trace, n + 1)| <= cfg.maxWakeups
    ensures Pending(cfg, trace, n + 1, Step(cfg, s, trace[n]))
  {
    var e := trace[n];
    WakeupOfStep(cfg, s, e);
    if e.Wakeup? && Allowed(cfg, e.cgroup) {
      WakeupHasRoom(cfg, trace, n, s);
      PutRoom(s.wakeup, cfg.maxWakeups, e.pid, e.ts);
    }
    PendingAfter(cfg, trace, n, s.wakeup, n + 1, Step(cfg, s, e).wakeup);
  }

  lemma PendingSteps(cfg: Config, trace: seq<Event>, n: nat)
    requires WakeupsFit(cfg, trace, n, cfg.maxWakeups)
    ensures forall k: nat, s: SoundState :: k < n && Pending(cfg, trace, k, s)
              ==> Pending(cfg, trace, k + 1, Stepper(cfg)(s, trace[k]))
  {
    forall k: nat, s: SoundState | k < n && Pending(cfg, trace, k, s)
      ensures Pending(cfg, trace, k + 1, Stepper(cfg)(s, trace[k]))
    {
      StepPending(cfg, trace, s, k);
    }
  }

  /** As long as the open wakeups fit the map, a task has a stored wakeup exactly when it has an
      open one, and it is that one. */
  lemma WakeupIsOpen(cfg: Config, trace: seq<Event>, n: nat)
    requires WakeupsFit(cfg, trace, n, cfg.maxWakeups)
    ensures Pending(cfg, trace, n, Run(cfg, trace, n))
  {
    var inv: (nat, SoundState) -> bool := (k: nat, s: SoundState) => Pending(cfg, trace, k, s);
    PendingSteps(cfg, trace, n);
    FoldKeeps<SoundState, Event>(Stepper(cfg), EMPTY, trace, n, inv);
  }

  lemma StepBounded(cfg: Config, s: SoundState, e: Event)
    requires |s.wakeup| <= cfg.maxWakeups
    ensures |Step(cfg, s, e).wakeup| <= cfg.maxWakeups
  {
    WakeupOfStep(cfg, s, e);
    if e.Wakeup? {
      PutBounded(s.wakeup, cfg.maxWakeups, e.pid, e.ts);
    } else {
      DeleteBounded(s.wakeup, e.pid);
    }
  }

  lemma WakeupsBounded(cfg: Config, trace: seq<Event>, n: nat)
    requires n <= |trace|
    ensures |Run(cfg, trace, n).wakeup| <= cfg.maxWakeups
  {
    var inv: (nat, SoundState) -> bool := (k: nat, s: SoundState) => |s.wakeup| <= cfg.maxWakeups;
    forall k: nat, s: SoundState | k < n && inv(k, s) ensures inv(k + 1, Stepper(cfg)(s, trace[k])) {
      StepBounded(cfg, s, trace[k]);
    }
    FoldKeeps<SoundState, Event>(Stepper(cfg), EMPTY, trace, n, inv);
  }

  /** And only then: the stored wakeups are the open ones throughout a trace exactly when the open
      ones always fit the map. */
  lemma WakeupExactly(cfg: Config, trace: seq<Event>)
    ensures (forall n: nat :: n <= |trace| ==> Pending(cfg, trace, n, Run(cfg, trace, n)))
            <==> WakeupsFit(cfg, trace, |trace|, cfg.maxWakeups)
  {
    if WakeupsFit(cfg, trace, |trace|, cfg.maxWakeups) {
      forall n: nat | n <= |trace| ensures Pending(cfg, trace, n, Run(cfg, trace, n)) {
        WakeupIsOpen(cfg, trace, n);
      }
    }
    if forall n: nat :: n <= |trace| ==> Pending(cfg, trace, n, Run(cfg, trace, n)) {
      forall m | 0 <= m <= |trace| ensures |OpenPids(cfg, trace, m)| <= cfg.maxWakeups {
        PendingKeys(cfg, trace, m, Run(cfg, trace, m));
        WakeupsBounded(cfg, trace, m);
      }
    }
  }

  /** A switch whose task has its open wakeup stored makes its sample; nothing else does. */
  lemma RunqOfStep(cfg: Config, trace: seq<Event>, s: SoundState, n: nat)
    requires n < |trace| && PendingAt(trace, s.wakeup, trace[n].pid, OpenWakeup(cfg, trace, n, trace[n].pid))
    ensures var e, s' := trace[n], Step(cfg, s, trace[n]);
            if Sampled(cfg, trace, n) then
              && s'.runq == Aggregated(s.runq, cfg.maxRunq, e.cgroup, Log2Slot(LatencyOf(cfg, trace, n)))
              && s'.dropped == s.dropped + if Admits(s.runq, cfg.maxRunq, e.cgroup) then 0 else 1
            else s'.runq == s.runq && s'.dropped == s.dropped
  {
  }

  /** One event counts exactly the run-queue sample it completes. */
  lemma StepSamples(cfg: Config, trace: seq<Event>, s: SoundState, n: nat, cgroup: nat, slot: nat)
    requires n < |trace| && PendingAt(trace, s.wakeup, trace[n].pid, OpenWakeup(cfg, trace, n, trace[n].pid))
    requires s.runq.Keys == RunqCgroups(cfg, trace, n) && |RunqCgroups(cfg, trace, n + 1)| <= cfg.maxRunq
    ensures Step(cfg, s, trace[n]).runq.Keys == RunqCgroups(cfg, trace, n + 1)
    ensures HistAt(Step(cfg, s, trace[n]).runq, cgroup, slot)
            == HistAt(s.runq, cgroup, slot) + if RunqSampleAt(cfg, trace, n, cgroup, slot) then 1 else 0
  {
    RunqOfStep(cfg, trace, s, n);
    if Sampled(cfg, trace, n) {
      var owner, sampled := trace[n].cgroup, Log2Slot(LatencyOf(cfg, trace, n));
      PutRoom(s.runq, cfg.maxRunq, owner, ZeroHist());
      AggregatedAt(s.runq, cfg.maxRunq, owner, sampled, cgroup, slot);
      AggregatedKeys(s.runq, cfg.maxRunq, owner, sampled);
    }
  }

  ghost predicate RunqOffline(cfg: Config, trace: seq<Event>, k: nat, s: SoundState, cgroup: nat, slot: nat)
  {
    && Pending(cfg, trace, k, s) && s.runq.Keys == RunqCgroups(cfg, trace, k)
    && HistAt(s.runq, cgroup, slot) == RunqCount(cfg, trace, k, cgroup, slot)
  }

  lemma StepOffline(cfg: Config, trace: seq<Event>, k: nat, s: SoundState, cgroup: nat, slot: nat)
    requires k < |trace| && Fits(cfg, trace, k + 1) && RunqOffline(cfg, trace, k, s, cgroup, slot)
    ensures RunqOffline(cfg, trace, k + 1, Step(cfg, s, trace[k]), cgroup, slot)
  {
    assert PendingAt(trace, s.wakeup, trace[k].pid, OpenWakeup(cfg, trace, k, trace[k].pid));
    StepSamples(cfg, trace, s, k, cgroup, slot);
    StepPending(cfg, trace, s, k);
  }

  /** With room for the open wakeups and the sampled cgroups, the run-queue histograms are the
      offline ones: every switch to an allowed task paired with that task's latest unconsumed
      wakeup. */
  lemma RunqIsOffline(cfg: Config, trace: seq<Event>, n: nat, cgroup: nat, slot: nat)
    requires Fits(cfg, trace, n)
    ensures Run(cfg, trace, n).runq.Keys == RunqCgroups(cfg, trace, n)
    ensures HistAt(Run(cfg, trace, n).runq, cgroup, slot) == RunqCount(cfg, trace, n, cgroup, slot)
  {
    var inv: (nat, SoundState) -> bool := (k: nat, s: SoundState) => RunqOffline(cfg, trace, k, s, cgroup, slot);
    RunqStart(cfg, trace, cgroup, slot);
    RunqSteps(cfg, trace, n, cgroup, slot);
    FoldKeeps<SoundState, Event>(Stepper(cfg), EMPTY, trace, n, inv);
  }

  lemma RunqStart(cfg: Config, trace: seq<Event>, cgroup: nat, slot: nat)
    ensures RunqOffline(cfg, trace, 0, EMPTY, cgroup, slot)
  {
  }

  lemma RunqSteps(cfg: Config, trace: seq<Event>, n: nat, cgroup: nat, slot: nat)
    requires Fits(cfg, trace, n)
    ensures forall k: nat, s: SoundState :: k < n && RunqOffline(cfg, trace, k, s, cgroup, slot)
              ==> RunqOffline(cfg, trace, k + 1, Stepper(cfg)(s, trace[k]), cgroup, slot)
  {
    forall k: nat, s: SoundState | k < n && RunqOffline(cfg, trace, k, s, cgroup, slot)
      ensures RunqOffline(cfg, trace, k + 1, Stepper(cfg)(s, trace[k]), cgroup, slot)
    {
      FitsBefore(cfg, trace, k + 1, n);
      StepOffline(cfg, trace, k, s, cgroup, slot);
    }
  }

  lemma {:induction false} OpenSince(cfg: Config, trace: seq<Event>, e: nat, n: nat)
    requires e < n <= |trace| && trace[e].Switch? && Allowed(cfg, trace[e].cgroup)
    ensures var x := OpenWakeup(cfg, trace, n, trace[e].pid); x.Some? ==> e < x.value
  {
    if n > e + 1 {
      OpenSince(cfg, trace, e, n - 1);
    }
  }

  /** No stored wakeup is sampled by two switches. */
  lemma WakeupSampledOnce(cfg: Config, trace: seq<Event>, e: nat, f: nat)
    requires e < f < |trace| && Sampled(cfg, trace, e) && Sampled(cfg, trace, f)
    ensures OpenWakeup(cfg, trace, e, trace[e].pid) != OpenWakeup(cfg, trace, f, trace[f].pid)
  {
    OpenSince(cfg, trace, e, f);
  }

  /** How many of the first `n` events bring in a task with a stored wakeup. */
  function SampledCount(cfg: Config, trace: seq<Event>, n: nat): nat
    requires n <= |trace|
  {
    if n == 0 then 0 else SampledCount(cfg, trace, n - 1) + if Sampled(cfg, trace, n - 1) then 1 else 0
  }

  /** Recorded plus dropped samples are the sampled switches, and a drop means a full map. */
  ghost predicate Accounted(cfg: Config, trace: seq<Event>, n: nat, s: SoundState)
  {
    && Pending(cfg, trace, n, s)
    && Recorded(s.runq) + s.dropped == SampledCount(cfg, trace, n)
    && |s.runq| <= cfg.maxRunq && (s.dropped > 0 ==> |s.runq| >= cfg.maxRunq)
  }

  lemma StepAccounted(cfg: Config, trace: seq<Event>, n: nat, s: SoundState)
    requires n < |trace| && |OpenPids(cfg, trace, n + 1)| <= cfg.maxWakeups && Accounted(cfg, trace, n, s)
    ensures Accounted(cfg, trace, n + 1, Step(cfg, s, trace[n]))
  {
    assert PendingAt(trace, s.wakeup, trace[n].pid, OpenWakeup(cfg, trace, n, trace[n].pid));
    StepPending(cfg, trace, s, n);
    RunqOfStep(cfg, trace, s, n);
    if Sampled(cfg, trace, n) {
      SampleAccounted(s.runq, cfg.maxRunq, trace[n].cgroup, Log2Slot(LatencyOf(cfg, trace, n)));
    }
  }

  lemma AccountedSteps(cfg: Config, trace: seq<Event>, n: nat)
    requires WakeupsFit(cfg, trace, n, cfg.maxWakeups)
    ensures forall k: nat, s: SoundState :: k < n && Accounted(cfg, trace, k, s)
              ==> Accounted(cfg, trace, k + 1, Stepper(cfg)(s, trace[k]))
  {
    forall k: nat, s: SoundState | k < n && Accounted(cfg, trace, k, s)
      ensures Accounted(cfg, trace, k + 1, Stepper(cfg)(s, trace[k]))
    {
      StepAccounted(cfg, trace, k, s);
    }
  }

  /** With room for the open wakeups, whatever room there is for histograms, each switch that brings
      in a task with an open wakeup is in a histogram or was dropped by a full map. */
  lemma SamplesAccounted(cfg: Config, trace: seq<Event>, n: nat)
    requires WakeupsFit(cfg, trace, n, cfg.maxWakeups)
    ensures Accounted(cfg, trace, n, Run(cfg, trace, n))
  {
    var inv: (nat, SoundState) -> bool := (k: nat, s: SoundState) => Accounted(cfg, trace, k, s);
    assert Recorded(EMPTY.runq) == 0;
    AccountedSteps(cfg, trace, n);
    FoldKeeps<SoundState, Event>(Stepper(cfg), EMPTY, trace, n, inv);
  }

  // ---- a full run-queue map --------------------------------------------------------------------------

  /** Whatever the map sizes, only open wakeups are stored, only cgroups that have samples are
      kept, and a drop means more of them than the map holds. */
  ghost predicate DropsDue(cfg: Config, trace: seq<Event>, n: nat, s: SoundState)
  {
    && n <= |trace| && s.runq.Keys <= RunqCgroups(cfg, trace, n)
    && (forall pid :: pid in s.wakeup ==> PendingAt(trace, s.wakeup, pid, OpenWakeup(cfg, trace, n, pid)))
    && (s.dropped > 0 ==> |RunqCgroups(cfg, trace, n)| > cfg.maxRunq)
  }

  lemma OnlyOpenStored(cfg: Config, trace: seq<Event>, n: nat, s: SoundState, m: nat, after: map<nat, nat>)
    requires n < |trace| && DropsDue(cfg, trace, n, s) && m == n + 1
    requires after == if !Allowed(cfg, trace[n].cgroup) then s.wakeup
                      else if trace[n].Wakeup? then Put(s.wakeup, cfg.maxWakeups, trace[n].pid, trace[n].ts)
                      else Delete(s.wakeup, trace[n].pid)
    ensures forall pid :: pid in after ==> PendingAt(trace, after, pid, OpenWakeup(cfg, trace, m, pid))
  {
    forall pid | pid in after ensures PendingAt(trace, after, pid, OpenWakeup(cfg, trace, m, pid)) {
      assert pid in s.wakeup ==> PendingAt(trace, s.wakeup, pid, OpenWakeup(cfg, trace, n, pid));
    }
  }

  lemma Overfull(runq: Hists<nat>, maxRunq: nat, cgroup: nat, cgroups: set<nat>)
    requires !Admits(runq, maxRunq, cgroup) && runq.Keys + {cgroup} <= cgroups
    ensures |cgroups| > maxRunq
  {
    SubsetSize(runq.Keys + {cgroup}, cgroups);
    assert |runq| == |runq.Keys|;
  }

  lemma RunqDue(cfg: Config, trace: seq<Event>, n: nat, s: SoundState)
    requires n < |trace| && s.runq.Keys <= RunqCgroups(cfg, trace, n)
    requires s.dropped > 0 ==> |RunqCgroups(cfg, trace, n)| > cfg.maxRunq
    requires trace[n].pid in s.wakeup ==>
               PendingAt(trace, s.wakeup, trace[n].pid, OpenWakeup(cfg, trace, n, trace[n].pid))
    ensures Step(cfg, s, trace[n]).runq.Keys <= RunqCgroups(cfg, trace, n + 1)
    ensures Step(cfg, s, trace[n]).dropped > 0 ==> |RunqCgroups(cfg, trace, n + 1)| > cfg.maxRunq
  {
    var e := trace[n];
    SubsetSize(RunqCgroups(cfg, trace, n), RunqCgroups(cfg, trace, n + 1));
    if e.pid !in s.wakeup {
      NoWakeupNoSample(cfg, s, e);
    } else {
      RunqOfStep(cfg, trace, s, n);
      if Sampled(cfg, trace, n) {
        AggregatedKeys(s.runq, cfg.maxRunq, e.cgroup, Log2Slot(LatencyOf(cfg, trace, n)));
        if !Admits(s.runq, cfg.maxRunq, e.cgroup) {
          Overfull(s.runq, cfg.maxRunq, e.cgroup, RunqCgroups(cfg, trace, n + 1));
        }
      }
    }
  }

  lemma StepDropsDue(cfg: Config, trace: seq<Event>, n: nat, s: SoundState)
    requires n < |trace| && DropsDue(cfg, trace, n, s)
    ensures DropsDue(cfg, trace, n + 1, Step(cfg, s, trace[n]))
  {
    WakeupOfStep(cfg, s, trace[n]);
    OnlyOpenStored(cfg, trace, n, s, n + 1, Step(cfg, s, trace[n]).wakeup);
    RunqDue(cfg, trace, n, s);
  }

  lemma DropsDueSteps(cfg: Config, trace: seq<Event>, n: nat)
    requires n <= |trace|
    ensures forall k: nat, s: SoundState :: k < n && DropsDue(cfg, trace, k, s)
              ==> DropsDue(cfg, trace, k + 1, Stepper(cfg)(s, trace[k]))
  {
    forall k: nat, s: SoundState | k < n && DropsDue(cfg, trace, k, s)
      ensures DropsDue(cfg, trace, k + 1, Stepper(cfg)(s, trace[k]))
    {
      StepDropsDue(cfg, trace, k, s);
    }
  }

  lemma NoWakeupNoSample(cfg: Config, s: SoundState, e: Event)
    requires e.pid !in s.wakeup
    ensures Step(cfg, s, e).runq == s.runq && Step(cfg, s, e).dropped == s.dropped
  {
  }

  lemma DropsNone(cfg: Config, trace: seq<Event>, n: nat)
    requires n <= |trace| && |RunqCgroups(cfg, trace, n)| <= cfg.maxRunq
    ensures Run(cfg, trace, n).dropped == 0
  {
    var inv: (nat, SoundState) -> bool := (k: nat, s: SoundState) => DropsDue(cfg, trace, k, s);
    DropsDueSteps(cfg, trace, n);
    FoldKeeps<SoundState, Event>(Stepper(cfg), EMPTY, trace, n, inv);
  }

  /** Unless a sample was dropped, every cgroup that has samples has a histogram. */
  ghost predicate KeptUnlessDropped(cfg: Config, trace: seq<Event>, n: nat, s: SoundState)
  {
    && Pending(cfg, trace, n, s) && |s.runq| <= cfg.maxRunq
    && (s.dropped == 0 ==> s.runq.Keys == RunqCgroups(cfg, trace, n))
  }

  lemma StepKeptUnlessDropped(cfg: Config, trace: seq<Event>, n: nat, s: SoundState)
    requires n < |trace| && |OpenPids(cfg, trace, n + 1)| <= cfg.maxWakeups && KeptUnlessDropped(cfg, trace, n, s)
    ensures KeptUnlessDropped(cfg, trace, n + 1, Step(cfg, s, trace[n]))
  {
    assert PendingAt(trace, s.wakeup, trace[n].pid, OpenWakeup(cfg, trace, n, trace[n].pid));
    StepPending(cfg, trace, s, n);
    RunqOfStep(cfg, trace, s, n);
    if Sampled(cfg, trace, n) {
      var slot := Log2Slot(LatencyOf(cfg, trace, n));
      AggregatedKeys(s.runq, cfg.maxRunq, trace[n].cgroup, slot);
      SampleAccounted(s.runq, cfg.maxRunq, trace[n].cgroup, slot);
    }
  }

  lemma KeptSteps(cfg: Config, trace: seq<Event>, n: nat)
    requires WakeupsFit(cfg, trace, n, cfg.maxWakeups)
    ensures forall k: nat, s: SoundState :: k < n && KeptUnlessDropped(cfg, trace, k, s)
              ==> KeptUnlessDropped(cfg, trace, k + 1, Stepper(cfg)(s, trace[k]))
  {
    forall k: nat, s: SoundState | k < n && KeptUnlessDropped(cfg, trace, k, s)
      ensures KeptUnlessDropped(cfg, trace, k + 1, Stepper(cfg)(s, trace[k]))
    {
      StepKeptUnlessDropped(cfg, trace, k, s);
    }
  }

  /** With room for the open wakeups, a trace drops no sample exactly when no more cgroups have
      samples than the run-queue map holds. */
  lemma DropsExactly(cfg: Config, trace: seq<Event>, n: nat)
    requires WakeupsFit(cfg, trace, n, cfg.maxWakeups)
    ensures Run(cfg, trace, n).dropped == 0 <==> |RunqCgroups(cfg, trace, n)| <= cfg.maxRunq
  {
    if |RunqCgroups(cfg, trace, n)| <= cfg.maxRunq {
      DropsNone(cfg, trace, n);
    }
    var inv: (nat, SoundState) -> bool := (k: nat, s: SoundState) => KeptUnlessDropped(cfg, trace, k, s);
    KeptSteps(cfg, trace, n);
    FoldKeeps<SoundState, Event>(Stepper(cfg), EMPTY, trace, n, inv);
    assert |Run(cfg, trace, n).runq| == |Run(cfg, trace, n).runq.Keys|;
  }

  /** One task wakes and runs in `m` cgroups, one after the other. */
  function Wanderer(m: nat): (trace: seq<Event>)
    ensures |trace| == 2 * m && forall i :: 0 <= i < |trace| ==> trace[i] == WandererEvent(i)
  {
    seq(2 * m, i requires 0 <= i < 2 * m => WandererEvent(i))
  }

  function WandererEvent(i: nat): Event
  {
    if i % 2 == 0 then Wakeup(0, i / 2, 0) else Switch(0, 1, 0, i / 2)
  }

  /** A wakeup and the switch that consumes it leave one sample. */
  lemma WakeAndRun(cfg: Config, trace: seq<Event>, k: nat, c: nat)
    requires !cfg.filter && k + 2 <= |trace| && OpenPids(cfg, trace, k) == {}
    requires trace[k] == Wakeup(0, c, 0) && trace[k + 1] == Switch(0, 1, 0, c)
    ensures OpenPids(cfg, trace, k + 1) == {0} && OpenPids(cfg, trace, k + 2) == {}
    ensures RunqCgroups(cfg, trace, k + 2) == RunqCgroups(cfg, trace, k) + {c}
  {
    assert OpenWakeup(cfg, trace, k + 1, 0) == Some(k);
    assert Sampled(cfg, trace, k + 1) && !Sampled(cfg, trace, k);
    assert RunqCgroups(cfg, trace, k + 1) == RunqCgroups(cfg, trace, k);
  }

  /** The wakeup and the switch in the `j`-th cgroup. */
  ghost predicate WakesIn(trace: seq<Event>, j: nat, k: nat)
  {
    k == 2 * j && k + 2 <= |trace| && trace[k] == Wakeup(0, j, 0) && trace[k + 1] == Switch(0, 1, 0, j)
  }

  lemma WandererPair(m: nat, j: nat)
    requires j < m
    ensures WakesIn(Wanderer(m), j, 2 * j)
  {
    assert Wanderer(m)[2 * j] == WandererEvent(2 * j) && Wanderer(m)[2 * j + 1] == WandererEvent(2 * j + 1);
  }

  /** After `n` cgroups: nothing open, one at most until then, and a sample in each. */
  ghost predicate Wandered(cfg: Config, trace: seq<Event>, n: nat, k: nat)
  {
    && k <= |trace| && OpenPids(cfg, trace, k) == {} && RunqCgroups(cfg, trace, k) == Below(n)
    && WakeupsFit(cfg, trace, k, 1)
  }

  lemma WanderOn(cfg: Config, trace: seq<Event>, n: nat, k: nat)
    requires !cfg.filter && k + 2 <= |trace| && Wandered(cfg, trace, n, k)
    requires trace[k] == Wakeup(0, n, 0) && trace[k + 1] == Switch(0, 1, 0, n)
    ensures Wandered(cfg, trace, n + 1, k + 2)
  {
    WakeAndRun(cfg, trace, k, n);
    FitsOneMore(cfg, trace, k, k + 1, 1);
    FitsOneMore(cfg, trace, k + 1, k + 2, 1);
    BelowNext(n);
  }

  lemma FitsOneMore(cfg: Config, trace: seq<Event>, k: nat, n: nat, capacity: nat)
    requires n == k + 1 <= |trace| && WakeupsFit(cfg, trace, k, capacity)
    requires |OpenPids(cfg, trace, n)| <= capacity
    ensures WakeupsFit(cfg, trace, n, capacity)
  {
    forall m | 0 <= m <= n ensures |OpenPids(cfg, trace, m)| <= capacity {
      assert m == n || m <= k;
    }
  }

  lemma WandererStart(cfg: Config, trace: seq<Event>)
    ensures Wandered(cfg, trace, 0, 0)
  {
  }

  lemma WandererStep(cfg: Config, trace: seq<Event>, j: nat, i: nat, n: nat, k: nat)
    requires !cfg.filter && WakesIn(trace, j, i) && Wandered(cfg, trace, j, i) && n == j + 1 && k == i + 2
    ensures Wandered(cfg, trace, n, k)
  {
    WanderOn(cfg, trace, j, i);
  }

  lemma {:induction false} WandererSamples(cfg: Config, trace: seq<Event>, n: nat, k: nat)
    requires !cfg.filter && k == 2 * n && forall j: nat, i: nat :: j < n && i == 2 * j ==> WakesIn(trace, j, i)
    ensures Wandered(cfg, trace, n, k)
  {
    if n == 0 {
      WandererStart(cfg, trace);
    } else {
      var j, i := n - 1, k - 2;
      WandererSamples(cfg, trace, j, i);
      WandererStep(cfg, trace, j, i, n, k);
    }
  }

  lemma WandererIs(cfg: Config, m: nat)
    requires !cfg.filter
    ensures Wandered(cfg, Wanderer(m), m, |Wanderer(m)|)
  {
    forall j: nat, i: nat | j < m && i == 2 * j ensures WakesIn(Wanderer(m), j, i) {
      WandererPair(m, j);
    }
    WandererSamples(cfg, Wanderer(m), m, 2 * m);
  }

  /** Without a filter, no sample is dropped in any trace with samples of at most `cgroups` cgroups
      exactly when the run-queue map holds that many; no flag of the output reports a drop. */
  lemma RunqLossExactly(cfg: Config, cgroups: nat)
    requires !cfg.filter && cfg.maxWakeups > 0
    ensures (forall trace: seq<Event> :: |RunqCgroups(cfg, trace, |trace|)| <= cgroups
               ==> Run(cfg, trace, |trace|).dropped == 0)
            <==> cgroups <= cfg.maxRunq
  {
    if cgroups <= cfg.maxRunq {
      forall trace: seq<Event> | |RunqCgroups(cfg, trace, |trace|)| <= cgroups
        ensures Run(cfg, trace, |trace|).dropped == 0
      {
        DropsNone(cfg, trace, |trace|);
      }
    } else {
      var trace := Wanderer(cfg.maxRunq + 1);
      WandererIs(cfg, cfg.maxRunq + 1);
      DropsExactly(cfg, trace, |trace|);
      assert Run(cfg, trace, |trace|).dropped != 0;
    }
  }

  // ---- from the trace to the gate ------------------------------------------------------------------

  /** The run-queue latencies of a cgroup among the first `n` events, in order. */
  function Latencies(cfg: Config, trace: seq<Event>, n: nat, cgroup: nat): seq<nat>
    requires n <= |trace|
  {
    if n == 0 then [] else Latencies(cfg, trace, n - 1, cgroup) + LatencyAt(cfg, trace, n - 1, cgroup)
  }

  function LatencyAt(cfg: Config, trace: seq<Event>, e: nat, cgroup: nat): seq<nat>
    requires e < |trace|
  {
    if !Sampled(cfg, trace, e) || trace[e].cgroup != cgroup then []
    else [LatencyOf(cfg, trace, e)]
  }

  lemma LatencyIsSample(cfg: Config, trace: seq<Event>, e: nat, cgroup: nat, slot: nat)
    requires e < |trace|
    ensures var more := SlotsOf(LatencyAt(cfg, trace, e, cgroup));
            |more| <= 1 && (more != [] && more[0] == slot <==> RunqSampleAt(cfg, trace, e, cgroup, slot))
  {
  }

  /** The slots of the latencies among the first `n` events. */
  function LatencySlots(cfg: Config, trace: seq<Event>, n: nat, cgroup: nat): (slots: seq<nat>)
    requires n <= |trace|
  {
    if n == 0 then []
    else LatencySlots(cfg, trace, n - 1, cgroup) + SlotsOf(LatencyAt(cfg, trace, n - 1, cgroup))
  }

  lemma {:induction false} SlotsAreBuckets(cfg: Config, trace: seq<Event>, n: nat, cgroup: nat)
    requires n <= |trace|
    ensures Buckets(Latencies(cfg, trace, n, cgroup), Log2Slot) == LatencySlots(cfg, trace, n, cgroup)
  {
    if n > 0 {
      SlotsAreBuckets(cfg, trace, n - 1, cgroup);
      BucketsAppend(Latencies(cfg, trace, n - 1, cgroup), LatencyAt(cfg, trace, n - 1, cgroup));
    }
  }

  lemma SlotsOneMore(cfg: Config, trace: seq<Event>, n: nat, cgroup: nat, slot: nat)
    requires n < |trace|
    ensures CountOf(LatencySlots(cfg, trace, n + 1, cgroup), slot)
         == CountOf(LatencySlots(cfg, trace, n, cgroup), slot)
            + if RunqSampleAt(cfg, trace, n, cgroup, slot) then 1 else 0
  {
    LatencyIsSample(cfg, trace, n, cgroup, slot);
    CountOneMore(LatencySlots(cfg, trace, n, cgroup), SlotsOf(LatencyAt(cfg, trace, n, cgroup)), slot);
  }

  lemma SlotsCounted(cfg: Config, trace: seq<Event>, n: nat, cgroup: nat, slot: nat)
    requires n <= |trace|
    ensures CountOf(LatencySlots(cfg, trace, n, cgroup), slot) == RunqCount(cfg, trace, n, cgroup, slot)
  {
    for i := 0 to n
      invariant CountOf(LatencySlots(cfg, trace, i, cgroup), slot) == RunqCount(cfg, trace, i, cgroup, slot)
    {
      SlotsOneMore(cfg, trace, i, cgroup, slot);
    }
  }

  lemma LatenciesCounted(cfg: Config, trace: seq<Event>, n: nat, cgroup: nat, slot: nat)
    requires n <= |trace|
    ensures CountOf(Buckets(Latencies(cfg, trace, n, cgroup), Log2Slot), slot) == RunqCount(cfg, trace, n, cgroup, slot)
  {
    SlotsAreBuckets(cfg, trace, n, cgroup);
    SlotsCounted(cfg, trace, n, cgroup, slot);
  }

  /** The run-queue histogram of a cgroup is that of all its latencies, and every cgroup with a
      latency has one. */
  lemma HistogramIsOfLatencies(cfg: Config, trace: seq<Event>, cgroup: nat)
    requires Fits(cfg, trace, |trace|)
    ensures var runq, lat := Run(cfg, trace, |trace|).runq, Latencies(cfg, trace, |trace|, cgroup);
            if cgroup in runq then runq[cgroup] == HistogramOf(lat) else lat == []
  {
    forall slot | 0 <= slot < MAX_OCTAVES
      ensures HistAt(Run(cfg, trace, |trace|).runq, cgroup, slot)
           == CountOf(Buckets(Latencies(cfg, trace, |trace|, cgroup), Log2Slot), slot)
    {
      RunqIsOffline(cfg, trace, |trace|, cgroup, slot);
      LatenciesCounted(cfg, trace, |trace|, cgroup, slot);
    }
    EntryIsHistogram(Run(cfg, trace, |trace|).runq, cgroup, Latencies(cfg, trace, |trace|, cgroup));
  }

  /** So the gate's percentile of a cgroup is within a half of the true one of its latencies. */
  lemma LatencyPercentile(cfg: Config, trace: seq<Event>, cgroup: nat, q: real, rank: nat, v: nat)
    requires Fits(cfg, trace, |trace|)
    requires P.Rank(Latencies(cfg, trace, |trace|, cgroup), q, rank)
    requires P.OrderStatistic(Latencies(cfg, trace, |trace|, cgroup), rank, v)
    ensures cgroup in Run(cfg, trace, |trace|).runq
    ensures var estimate := P.Log2Estimate(Run(cfg, trace, |trace|).runq[cgroup], q);
            && estimate == P.Midpoint(Log2Slot(v))
            && (1 <= v < Pow2(40) ==> RealSums.Abs(estimate - v as real) <= (v as real) / 2.0)
  {
    HistogramIsOfLatencies(cfg, trace, cgroup);
    P.Log2PercentileError(Latencies(cfg, trace, |trace|, cgroup), q, rank, v);
  }

  /** And its mean above three quarters of the true mean, and at most three halves of it. */
  lemma LatencyMean(cfg: Config, trace: seq<Event>, cgroup: nat)
    requires Fits(cfg, trace, |trace|)
    requires Latencies(cfg, trace, |trace|, cgroup) != []
    requires forall i :: 0 <= i < |Latencies(cfg, trace, |trace|, cgroup)|
              ==> 1 <= Latencies(cfg, trace, |trace|, cgroup)[i] < Pow2(40)
    ensures cgroup in Run(cfg, trace, |trace|).runq
    ensures var lat := Latencies(cfg, trace, |trace|, cgroup);
            var m := (P.SampleSum(lat) as real) / (|lat| as real);
            0.75 * m < P.MeanEstimate(Run(cfg, trace, |trace|).runq[cgroup]) <= 1.5 * m
  {
    HistogramIsOfLatencies(cfg, trace, cgroup);
    P.MeanEstimateBrackets(Latencies(cfg, trace, |trace|, cgroup));
  }
}
