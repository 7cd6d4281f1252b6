/** One benchmark run: what `execute_run` does to the world, and exactly when it undoes every
    attribution it made. */
module Lifecycle {
  import opened Attribution
  import opened Channels
  import opened Options
  import opened Owner
  import opened Wire

  /** Everything a run does that matters outside it, in order. */
  datatype Effect =
    | Provision | Start | Steady
    | Control(c: Command, fate: Fate, ok: bool, acted: bool)
    | Spawn(gadget: nat) | WorkloadStart | Wait(gadget: nat) | WorkloadStop | Report | Spans
    | Teardown

  datatype Tap = Tap(ifindex: nat, netns: nat)

  /** How every fallible step of the run turns out. */
  datatype World = World(
    attribution: bool, provisions: bool, starts: bool, steadies: bool, taps: seq<Tap>,
    gadgets: nat, spawns: nat -> bool, workloadStarts: bool, waits: nat -> bool,
    spansRead: bool, tearsDown: bool, fate: nat -> Fate)

  datatype Outcome =
    | NotSteady | NoTap | RegisterError | StateError | SpawnError | WorkloadError | WaitError
    | SpansError | TeardownError | Completed

  // ---- traces --------------------------------------------------------------------------------

  predicate Adds(e: Effect)
  {
    e.Control? && e.c.Add?
  }

  predicate Removes(e: Effect)
  {
    e.Control? && e.c.Remove?
  }

  /** The handles a trace attributed, in order. */
  function Attributed(trace: seq<Effect>): seq<nat>
  {
    if trace == [] then []
    else
      var e := trace[|trace| - 1];
      Attributed(trace[..|trace| - 1]) + if Adds(e) && e.ok then [e.c.handle] else []
  }

  /** How many registrations a trace tries. */
  function Tried(trace: seq<Effect>): nat
  {
    if trace == [] then 0
    else Tried(trace[..|trace| - 1]) + if Adds(trace[|trace| - 1]) then 1 else 0
  }

  /** How many removals a trace tries. */
  function Removals(trace: seq<Effect>): nat
  {
    if trace == [] then 0
    else Removals(trace[..|trace| - 1]) + if Removes(trace[|trace| - 1]) then 1 else 0
  }

  /** `removals` deregisters exactly `handles`, in order. */
  ghost predicate Deregisters(removals: seq<Effect>, handles: seq<nat>)
  {
    |removals| == |handles| &&
    forall i :: 0 <= i < |handles| ==> removals[i].Control? && removals[i].c == Remove(handles[i])
  }

  lemma DeregistersOneMore(removals: seq<Effect>, handles: seq<nat>, i: nat, e: Effect)
    requires i < |handles| && Deregisters(removals, handles[..i]) && e.Control? && e.c == Remove(handles[i])
    ensures Deregisters(removals + [e], handles[..i + 1])
  {
  }

  ghost predicate NoCleanup(trace: seq<Effect>)
  {
    forall i :: 0 <= i < |trace| ==> !Removes(trace[i]) && !trace[i].Teardown?
  }

  lemma NoCleanupOneMore(trace: seq<Effect>, e: Effect)
    ensures NoCleanup(trace) && !Removes(e) && !e.Teardown? ==> NoCleanup(trace + [e])
  {
  }

  /** The trace does its work, then removes each attributed handle once, in the order they
      were attributed, then tears down once, and that is the end of it. */
  ghost predicate CleanedUp(trace: seq<Effect>)
  {
    exists work: seq<Effect>, removals: seq<Effect> ::
      trace == work + removals + [Teardown] && NoCleanup(work) && Deregisters(removals, Attributed(work))
  }

  /** The client was told of every removal that it succeeded. */
  ghost predicate AllRemoved(trace: seq<Effect>)
  {
    forall i :: 0 <= i < |trace| && Removes(trace[i]) ==> trace[i].ok
  }

  /** The owner carried out a registration that the client was told nothing of. */
  ghost predicate LostAdd(trace: seq<Effect>)
  {
    exists i :: 0 <= i < |trace| && Adds(trace[i]) && Lost(trace[i].ok, trace[i].acted)
  }

  /** The owner carried out every removal, and no registration that was not confirmed. */
  ghost predicate Undone(trace: seq<Effect>)
  {
    !LostAdd(trace) && forall i :: 0 <= i < |trace| && Removes(trace[i]) ==> trace[i].acted
  }

  /** Every command before the `i`-th effect was answered by an owner who stayed. */
  ghost predicate Unbroken(trace: seq<Effect>, i: nat)
    requires i <= |trace|
  {
    forall j :: 0 <= j < i && trace[j].Control? ==> trace[j].fate.Answered? && trace[j].fate.stays
  }

  /** The fates that restore the map: the owner is there for every removal and acts on it, and
      answers every registration it is there for and acts on. */
  ghost predicate Restoring(trace: seq<Effect>)
  {
    && (forall i :: 0 <= i < |trace| && Removes(trace[i]) ==> Unbroken(trace, i) && Acts(trace[i].fate))
    && (forall i :: 0 <= i < |trace| && Adds(trace[i]) && Unbroken(trace, i) && Acts(trace[i].fate)
          ==> trace[i].fate.Answered?)
  }

  // ---- the order of a run ----------------------------------------------------------------------

  /** The commands that may follow a trace: registrations tap by tap while all have succeeded,
      the state of the tap last registered, and removals in the order of the handles. */
  predicate MaySend(trace: seq<Effect>, c: Command, taps: seq<Tap>, base: nat)
  {
    var n := |Attributed(trace)|;
    match c
    case Add(_, _, _) => Removals(trace) == 0 && Tried(trace) == n < |taps| && c == AddOf(taps[n], base + n)
    case State(_, _) => Removals(trace) == 0 && Tried(trace) == n > 0 && c == State(base + n - 1, RUNNING)
    case Remove(handle) => Removals(trace) < n && handle == base + Removals(trace)
  }

  /** Once removals begin nothing else follows but the teardown after the last. */
  predicate MayFollow(trace: seq<Effect>, e: Effect, taps: seq<Tap>, base: nat)
  {
    if e.Control? then MaySend(trace, e.c, taps, base)
    else if e.Teardown? then Removals(trace) == |Attributed(trace)|
    else Removals(trace) == 0
  }

  function AddOf(tap: Tap, handle: nat): Command
  {
    Add(tap.ifindex, handle, tap.netns)
  }

  predicate Orderly(trace: seq<Effect>, taps: seq<Tap>, base: nat)
  {
    trace != [] ==> var n := |trace| - 1; Orderly(trace[..n], taps, base) && MayFollow(trace[..n], trace[n], taps, base)
  }

  /** The channel around every effect. */
  ghost predicate History(trace: seq<Effect>, channels: seq<Channel>, maxVms: nat)
  {
    && |channels| == |trace| + 1
    && forall i :: 0 <= i < |trace| ==> Moves(channels[i], trace[i], channels[i + 1], maxVms)
  }

  ghost predicate Moves(ch: Channel, e: Effect, ch': Channel, maxVms: nat)
  {
    if e.Control? then Exchange(ch, e.c, e.fate, e.ok, e.acted, ch', maxVms) else ch' == ch
  }

  /** A history of an orderly run. */
  ghost predicate RunsAs(trace: seq<Effect>, channels: seq<Channel>, maxVms: nat, taps: seq<Tap>, base: nat)
  {
    History(trace, channels, maxVms) && Orderly(trace, taps, base)
  }

  lemma Shorter(trace: seq<Effect>, channels: seq<Channel>, maxVms: nat, taps: seq<Tap>, base: nat)
    requires RunsAs(trace, channels, maxVms, taps, base) && trace != []
    ensures RunsAs(trace[..|trace| - 1], channels[..|trace|], maxVms, taps, base)
    ensures Moves(channels[|trace| - 1], trace[|trace| - 1], channels[|trace|], maxVms)
  {
  }

  lemma Longer(trace: seq<Effect>, channels: seq<Channel>, maxVms: nat, taps: seq<Tap>, base: nat, e: Effect,
               ch: Channel)
    requires RunsAs(trace, channels, maxVms, taps, base)
    requires MayFollow(trace, e, taps, base) && Moves(channels[|trace|], e, ch, maxVms)
    ensures RunsAs(trace + [e], channels + [ch], maxVms, taps, base)
  {
    assert (trace + [e])[..|trace|] == trace;
  }

  lemma CountsOneMore(trace: seq<Effect>, e: Effect)
    ensures Attributed(trace + [e]) == Attributed(trace) + if Adds(e) && e.ok then [e.c.handle] else []
    ensures Tried(trace + [e]) == Tried(trace) + if Adds(e) then 1 else 0
    ensures Removals(trace + [e]) == Removals(trace) + if Removes(e) then 1 else 0
  {
    assert (trace + [e])[..|trace|] == trace;
  }

  lemma {:induction false} CountsInStep(trace: seq<Effect>, taps: seq<Tap>, base: nat)
    requires Orderly(trace, taps, base)
    ensures Removals(trace) <= |Attributed(trace)| <= Tried(trace) <= |Attributed(trace)| + 1
    ensures Tried(trace) <= |taps|
    ensures forall i :: 0 <= i < |Attributed(trace)| ==> Attributed(trace)[i] == base + i
  {
    if trace != [] {
      CountsInStep(trace[..|trace| - 1], taps, base);
    }
  }

  lemma HandleAt(trace: seq<Effect>, taps: seq<Tap>, base: nat, i: nat)
    requires Orderly(trace, taps, base) && i < |Attributed(trace)|
    ensures Attributed(trace)[i] == base + i
  {
    CountsInStep(trace, taps, base);
  }

  // ---- the owner's map over a run ------------------------------------------------------------

  /** The taps whose entries the owner holds: those added, by whatever is known of it, and not
      removed. */
  ghost function Held(trace: seq<Effect>): set<nat>
  {
    if trace == [] then {}
    else
      var n := |trace| - 1;
      var e, before := trace[n], Held(trace[..n]);
      if Adds(e) && e.acted then before + {Tried(trace[..n])}
      else if Removes(e) && e.acted then before - {Removals(trace[..n])}
      else before
  }

  /** `vms` is `before` plus one entry for each tap in `held`, at the tap's index and with its
      handle. */
  ghost predicate Holds(vms: map<nat, VmCtx>, before: map<nat, VmCtx>, taps: seq<Tap>, base: nat, held: set<nat>)
  {
    && (forall k :: k in before ==> k in vms && vms[k] == before[k])
    && (forall k :: k in vms && k !in before ==> exists i :: i in held && i < |taps| && taps[i].ifindex == k)
    && (forall i :: i in held ==> HeldAt(vms, taps, base, i))
  }

  ghost predicate HeldAt(vms: map<nat, VmCtx>, taps: seq<Tap>, base: nat, i: nat)
  {
    i < |taps| && taps[i].ifindex in vms && vms[taps[i].ifindex].vmId == base + i
  }

  /** Nobody else uses the taps' indices, nor a handle from `base` on. */
  ghost predicate Fresh(before: map<nat, VmCtx>, taps: seq<Tap>, base: nat)
  {
    && (forall i :: 0 <= i < |taps| ==> taps[i].ifindex !in before)
    && (forall i, j :: 0 <= i < j < |taps| ==> taps[i].ifindex != taps[j].ifindex)
    && (forall k :: k in before ==> before[k].vmId < base)
  }

  /** An entry with one of the run's handles sits at that handle's tap. */
  lemma WhereHandleIs(vms: map<nat, VmCtx>, before: map<nat, VmCtx>, taps: seq<Tap>, base: nat, held: set<nat>,
                      i: nat, k: nat)
    requires Holds(vms, before, taps, base, held) && Fresh(before, taps, base)
    requires k in vms && vms[k].vmId == base + i
    ensures i in held && i < |taps| && k == taps[i].ifindex
  {
    assert k !in before;
    var j :| j in held && j < |taps| && taps[j].ifindex == k;
    assert HeldAt(vms, taps, base, j);
  }

  lemma HoldsAfterAdd(vms: map<nat, VmCtx>, before: map<nat, VmCtx>, taps: seq<Tap>, base: nat, held: set<nat>,
                      maxVms: nat, i: nat, vms': map<nat, VmCtx>)
    requires Holds(vms, before, taps, base, held) && Fresh(before, taps, base)
    requires i < |taps| && i !in held && Applies(vms, maxVms, AddOf(taps[i], base + i), true, vms')
    ensures Holds(vms', before, taps, base, held + {i})
  {
    forall k | k in vms' && k !in before
      ensures exists j :: j in held + {i} && j < |taps| && taps[j].ifindex == k
    {
      if k == taps[i].ifindex {
        assert i in held + {i};
      } else {
        var j :| j in held && j < |taps| && taps[j].ifindex == k;
        assert j in held + {i};
      }
    }
    forall j | j in held + {i} ensures HeldAt(vms', taps, base, j) {
      assert j in held ==> HeldAt(vms, taps, base, j);
    }
  }

  lemma HoldsAfterState(vms: map<nat, VmCtx>, before: map<nat, VmCtx>, taps: seq<Tap>, base: nat, held: set<nat>,
                        maxVms: nat, i: nat, state: nat, vms': map<nat, VmCtx>)
    requires Holds(vms, before, taps, base, held) && Fresh(before, taps, base)
    requires Applies(vms, maxVms, State(base + i, state), true, vms')
    ensures Holds(vms', before, taps, base, held)
  {
    var k :| k in vms && vms[k].vmId == base + i && vms' == vms[k := vms[k].(state := state)];
    WhereHandleIs(vms, before, taps, base, held, i, k);
    forall j | j in held ensures HeldAt(vms', taps, base, j) {
      assert HeldAt(vms, taps, base, j);
    }
  }

  lemma HoldsAfterRemove(vms: map<nat, VmCtx>, before: map<nat, VmCtx>, taps: seq<Tap>, base: nat, held: set<nat>,
                         maxVms: nat, i: nat, vms': map<nat, VmCtx>)
    requires Holds(vms, before, taps, base, held) && Fresh(before, taps, base)
    requires Applies(vms, maxVms, Remove(base + i), true, vms')
    ensures Holds(vms', before, taps, base, held - {i})
  {
    var k :| k in vms && vms[k].vmId == base + i && vms' == vms - {k};
    WhereHandleIs(vms, before, taps, base, held, i, k);
    OthersStay(vms, before, taps, base, held, i);
  }

  lemma OthersStay(vms: map<nat, VmCtx>, before: map<nat, VmCtx>, taps: seq<Tap>, base: nat, held: set<nat>, i: nat)
    requires Holds(vms, before, taps, base, held) && Fresh(before, taps, base) && i < |taps|
    ensures Holds(vms - {taps[i].ifindex}, before, taps, base, held - {i})
  {
    var vms' := vms - {taps[i].ifindex};
    forall k | k in vms' && k !in before
      ensures exists j :: j in held - {i} && j < |taps| && taps[j].ifindex == k
    {
      var j :| j in held && j < |taps| && taps[j].ifindex == k;
      assert j in held - {i};
    }
    forall j | j in held - {i} ensures HeldAt(vms', taps, base, j) {
      assert HeldAt(vms, taps, base, j);
      assert taps[j].ifindex != taps[i].ifindex;
    }
  }

  lemma RestoredIffNoneHeld(vms: map<nat, VmCtx>, before: map<nat, VmCtx>, taps: seq<Tap>, base: nat, held: set<nat>)
    requires Holds(vms, before, taps, base, held) && Fresh(before, taps, base)
    ensures vms == before <==> held == {}
  {
    if held == {} {
      assert vms.Keys == before.Keys;
    } else {
      var i :| i in held;
      assert HeldAt(vms, taps, base, i);
    }
  }

  lemma {:induction false} HeldBelow(trace: seq<Effect>, taps: seq<Tap>, base: nat)
    requires Orderly(trace, taps, base)
    ensures forall i :: i in Held(trace) ==> i < Tried(trace)
  {
    if trace != [] {
      HeldBelow(trace[..|trace| - 1], taps, base);
    }
  }

  /** Along every orderly history the owner holds exactly what was added and not removed. */
  lemma {:induction false} OwnerHolds(trace: seq<Effect>, channels: seq<Channel>, maxVms: nat, taps: seq<Tap>,
                                      base: nat)
    requires RunsAs(trace, channels, maxVms, taps, base) && Fresh(channels[0].vms, taps, base)
    ensures Holds(channels[|trace|].vms, channels[0].vms, taps, base, Held(trace))
  {
    if trace != [] {
      var n := |trace| - 1;
      Shorter(trace, channels, maxVms, taps, base);
      OwnerHolds(trace[..n], channels[..n + 1], maxVms, taps, base);
      HeldBelow(trace[..n], taps, base);
      HoldsOneMore(trace[..n], trace[n], channels[0].vms, channels[n], channels[n + 1], maxVms, taps, base);
      assert trace == trace[..n] + [trace[n]];
    }
  }

  /** What is held once the owner has carried out one more command. */
  ghost function HeldWith(held: set<nat>, c: Command, tried: nat, removals: nat): set<nat>
  {
    match c
    case Add(_, _, _) => held + {tried}
    case State(_, _) => held
    case Remove(_) => held - {removals}
  }

  /** A command in its place, after `tried` registrations and `removals` removals. */
  predicate InPlace(c: Command, tried: nat, removals: nat, taps: seq<Tap>, base: nat)
  {
    match c
    case Add(_, _, _) => tried < |taps| && c == AddOf(taps[tried], base + tried)
    case State(_, _) => tried > 0 && c == State(base + tried - 1, RUNNING)
    case Remove(_) => c == Remove(base + removals)
  }

  lemma HeldOneMore(trace: seq<Effect>, e: Effect)
    ensures Held(trace + [e]) ==
            if e.Control? && e.acted then HeldWith(Held(trace), e.c, Tried(trace), Removals(trace)) else Held(trace)
  {
    assert (trace + [e])[..|trace|] == trace;
  }

  lemma FollowsInPlace(trace: seq<Effect>, e: Effect, taps: seq<Tap>, base: nat)
    requires MayFollow(trace, e, taps, base) && e.Control?
    ensures InPlace(e.c, Tried(trace), Removals(trace), taps, base)
  {
  }

  lemma HoldsOneMore(trace: seq<Effect>, e: Effect, before: map<nat, VmCtx>, ch: Channel, ch': Channel, maxVms: nat,
                     taps: seq<Tap>, base: nat)
    requires MayFollow(trace, e, taps, base) && Moves(ch, e, ch', maxVms) && Fresh(before, taps, base)
    requires Holds(ch.vms, before, taps, base, Held(trace)) && forall i :: i in Held(trace) ==> i < Tried(trace)
    ensures Holds(ch'.vms, before, taps, base, Held(trace + [e]))
  {
    HeldOneMore(trace, e);
    if e.Control? {
      FollowsInPlace(trace, e, taps, base);
      HoldsAfter(e.c, e.acted, Tried(trace), Removals(trace), before, ch.vms, ch'.vms, maxVms, taps, base, Held(trace));
    }
  }

  lemma HoldsAfter(c: Command, acted: bool, tried: nat, removals: nat, before: map<nat, VmCtx>, vms: map<nat, VmCtx>,
                   vms': map<nat, VmCtx>, maxVms: nat, taps: seq<Tap>, base: nat, held: set<nat>)
    requires Holds(vms, before, taps, base, held) && Fresh(before, taps, base)
    requires Applies(vms, maxVms, c, acted, vms') && InPlace(c, tried, removals, taps, base)
    requires forall i :: i in held ==> i < tried
    ensures Holds(vms', before, taps, base, if acted then HeldWith(held, c, tried, removals) else held)
  {
    if acted {
      match c {
        case Add(_, _, _) => HoldsAfterAdd(vms, before, taps, base, held, maxVms, tried, vms');
        case State(_, _) => HoldsAfterState(vms, before, taps, base, held, maxVms, tried - 1, RUNNING, vms');
        case Remove(_) => HoldsAfterRemove(vms, before, taps, base, held, maxVms, removals, vms');
      }
    }
  }

  // ---- when the map is restored ------------------------------------------------------------------

  /** Confirmed registrations are held until they are removed. */
  lemma {:induction false} ConfirmedAreHeld(trace: seq<Effect>, channels: seq<Channel>, maxVms: nat, taps: seq<Tap>,
                                            base: nat)
    requires RunsAs(trace, channels, maxVms, taps, base)
    ensures forall i :: Removals(trace) <= i < |Attributed(trace)| ==> i in Held(trace)
  {
    if trace != [] {
      Shorter(trace, channels, maxVms, taps, base);
      ConfirmedAreHeld(trace[..|trace| - 1], channels[..|trace|], maxVms, taps, base);
    }
  }

  lemma UndoneOneMore(trace: seq<Effect>, e: Effect)
    ensures Undone(trace + [e]) <==>
            Undone(trace) && !(Adds(e) && Lost(e.ok, e.acted)) && (Removes(e) ==> e.acted)
  {
    var all := trace + [e];
    assert all[|trace|] == e;
    assert forall j :: 0 <= j < |trace| ==> all[j] == trace[j];
  }

  /** What an owner holds that it should not: a tap past the confirmed ones, or one already
      passed by the removals. */
  ghost predicate Leftover(trace: seq<Effect>, i: nat)
  {
    i in Held(trace) && (i < Removals(trace) || i >= |Attributed(trace)|)
  }

  /** Something is left over exactly when something was not undone. */
  lemma {:induction false} LeftoverExactly(trace: seq<Effect>, channels: seq<Channel>, maxVms: nat, taps: seq<Tap>,
                                           base: nat)
    requires RunsAs(trace, channels, maxVms, taps, base)
    ensures Undone(trace) <==> forall i :: !Leftover(trace, i)
  {
    if trace != [] {
      var n := |trace| - 1;
      Shorter(trace, channels, maxVms, taps, base);
      LeftoverExactly(trace[..n], channels[..n + 1], maxVms, taps, base);
      ConfirmedAreHeld(trace[..n], channels[..n + 1], maxVms, taps, base);
      CountsInStep(trace[..n], taps, base);
      HeldBelow(trace[..n], taps, base);
      assert trace == trace[..n] + [trace[n]];
      UndoneOneMore(trace[..n], trace[n]);
      LeftoverOneMore(trace[..n], trace[n], channels[n], channels[n + 1], maxVms, taps, base);
    }
  }

  lemma LeftoverOneMore(trace: seq<Effect>, e: Effect, ch: Channel, ch': Channel, maxVms: nat, taps: seq<Tap>,
                        base: nat)
    requires MayFollow(trace, e, taps, base) && Moves(ch, e, ch', maxVms)
    requires forall i :: Removals(trace) <= i < |Attributed(trace)| ==> i in Held(trace)
    requires forall i :: i in Held(trace) ==> i < Tried(trace)
    requires Removals(trace) <= |Attributed(trace)| <= Tried(trace) <= |Attributed(trace)| + 1
    ensures (forall i :: !Leftover(trace + [e], i)) <==>
            (forall i :: !Leftover(trace, i)) && !(Adds(e) && Lost(e.ok, e.acted)) && (Removes(e) ==> e.acted)
  {
    CountsOneMore(trace, e);
    assert (trace + [e])[..|trace|] == trace;
    if Adds(e) && Lost(e.ok, e.acted) {
      assert Leftover(trace + [e], Tried(trace));
    } else if Removes(e) && !e.acted {
      assert Leftover(trace + [e], Removals(trace));
    } else {
      forall i ensures Leftover(trace + [e], i) <==> Leftover(trace, i) {
      }
    }
  }

  /** After an orderly run whose removals are through, the map is what it was exactly when
      everything was undone. */
  lemma RestoredExactly(trace: seq<Effect>, channels: seq<Channel>, maxVms: nat, taps: seq<Tap>, base: nat)
    requires RunsAs(trace, channels, maxVms, taps, base) && Fresh(channels[0].vms, taps, base)
    requires Removals(trace) == |Attributed(trace)|
    ensures channels[|trace|].vms == channels[0].vms <==> Undone(trace)
  {
    OwnerHolds(trace, channels, maxVms, taps, base);
    RestoredIffNoneHeld(channels[|trace|].vms, channels[0].vms, taps, base, Held(trace));
    LeftoverExactly(trace, channels, maxVms, taps, base);
    if Held(trace) != {} {
      var i :| i in Held(trace);
      assert Leftover(trace, i);
    }
  }

  /** A confirmed removal was carried out, so among runs that see all theirs confirmed only a
      lost registration leaves anything behind. */
  lemma RestoredUnlessLost(trace: seq<Effect>, channels: seq<Channel>, maxVms: nat, taps: seq<Tap>, base: nat)
    requires RunsAs(trace, channels, maxVms, taps, base) && Fresh(channels[0].vms, taps, base)
    requires Removals(trace) == |Attributed(trace)| && AllRemoved(trace)
    ensures channels[|trace|].vms == channels[0].vms <==> !LostAdd(trace)
  {
    RestoredExactly(trace, channels, maxVms, taps, base);
    forall i | 0 <= i < |trace| && Removes(trace[i]) ensures trace[i].acted {
      assert Moves(channels[i], trace[i], channels[i + 1], maxVms);
    }
  }

  // ---- in terms of fates ---------------------------------------------------------------------------

  /** The channel works exactly as long as every command was answered by an owner who stayed. */
  lemma {:induction false} HealthyExactly(trace: seq<Effect>, channels: seq<Channel>, maxVms: nat, i: nat)
    requires History(trace, channels, maxVms) && i <= |trace|
    ensures Healthy(channels[i]) <==> Healthy(channels[0]) && Unbroken(trace, i)
  {
    if i > 0 {
      HealthyExactly(trace, channels, maxVms, i - 1);
      assert Moves(channels[i - 1], trace[i - 1], channels[i], maxVms);
    }
  }

  /** Enough room for every tap. */
  predicate Room(before: map<nat, VmCtx>, taps: seq<Tap>, maxVms: nat)
  {
    |before| + |taps| <= maxVms
  }

  ghost function Indices(taps: seq<Tap>, held: set<nat>): (indices: set<nat>)
    requires forall i :: i in held ==> i < |taps|
    ensures forall i :: i in held ==> taps[i].ifindex in indices
    ensures |indices| <= |held|
  {
    if held == {} then {}
    else
      var i :| i in held;
      {taps[i].ifindex} + Indices(taps, held - {i})
  }

  lemma FewHeld(held: set<nat>, n: nat)
    requires forall i :: i in held ==> i < n
    ensures |held| <= n
  {
    if n == 0 {
      assert held == {};
    } else {
      FewHeld(held - {n - 1}, n - 1);
    }
  }

  lemma MapSize(vms: map<nat, VmCtx>, before: map<nat, VmCtx>, taps: seq<Tap>, base: nat, held: set<nat>, n: nat)
    requires Holds(vms, before, taps, base, held) && n <= |taps| && forall i :: i in held ==> i < n
    ensures |vms| <= |before| + n
  {
    var indices := Indices(taps, held);
    FewHeld(held, n);
    assert vms.Keys <= before.Keys + indices;
    SubsetSize(vms.Keys, before.Keys + indices);
    assert |before.Keys + indices| <= |before.Keys| + |indices|;
  }

  lemma SubsetSize(a: set<nat>, b: set<nat>)
    requires a <= b
    ensures |a| <= |b|
  {
    if a != {} {
      var x :| x in a;
      SubsetSize(a - {x}, b - {x});
    }
  }

  /** With room, each registration and removal of an orderly run can be carried out when it is
      sent. */
  lemma SentArePossible(trace: seq<Effect>, channels: seq<Channel>, maxVms: nat, taps: seq<Tap>, base: nat, e: Effect)
    requires RunsAs(trace, channels, maxVms, taps, base) && MayFollow(trace, e, taps, base) && (Adds(e) || Removes(e))
    requires Fresh(channels[0].vms, taps, base) && Room(channels[0].vms, taps, maxVms)
    ensures Possible(channels[|trace|].vms, maxVms, e.c)
  {
    var vms := channels[|trace|].vms;
    OwnerHolds(trace, channels, maxVms, taps, base);
    if Adds(e) {
      HeldBelow(trace, taps, base);
      MapSize(vms, channels[0].vms, taps, base, Held(trace), Tried(trace));
    } else {
      ConfirmedAreHeld(trace, channels, maxVms, taps, base);
      assert HeldAt(vms, taps, base, Removals(trace));
    }
  }

  lemma UnbrokenBefore(trace: seq<Effect>, n: nat, i: nat)
    requires i <= n <= |trace|
    ensures Unbroken(trace[..n], i) <==> Unbroken(trace, i)
  {
    assert forall j :: 0 <= j < i ==> trace[..n][j] == trace[j];
  }

  lemma ActsLast(trace: seq<Effect>, channels: seq<Channel>, maxVms: nat, taps: seq<Tap>, base: nat, n: nat)
    requires RunsAs(trace, channels, maxVms, taps, base) && |trace| == n + 1 && (Adds(trace[n]) || Removes(trace[n]))
    requires Fresh(channels[0].vms, taps, base) && Room(channels[0].vms, taps, maxVms) && Healthy(channels[0])
    ensures trace[n].acted <==> Unbroken(trace, n) && Acts(trace[n].fate)
  {
    Shorter(trace, channels, maxVms, taps, base);
    SentArePossible(trace[..n], channels[..n + 1], maxVms, taps, base, trace[n]);
    HealthyExactly(trace, channels, maxVms, n);
  }

  /** With room on a working channel, an owner carries out a registration or removal exactly
      when the channel is still unbroken and it is willing. */
  lemma {:induction false} ActsExactly(trace: seq<Effect>, channels: seq<Channel>, maxVms: nat, taps: seq<Tap>,
                                       base: nat, i: nat)
    requires RunsAs(trace, channels, maxVms, taps, base) && i < |trace| && (Adds(trace[i]) || Removes(trace[i]))
    requires Fresh(channels[0].vms, taps, base) && Room(channels[0].vms, taps, maxVms) && Healthy(channels[0])
    ensures trace[i].acted <==> Unbroken(trace, i) && Acts(trace[i].fate)
  {
    var n := |trace| - 1;
    if i < n {
      Shorter(trace, channels, maxVms, taps, base);
      ActsExactly(trace[..n], channels[..n + 1], maxVms, taps, base, i);
      UnbrokenBefore(trace, n, i);
    } else {
      ActsLast(trace, channels, maxVms, taps, base, n);
    }
  }

  /** Exactly which fates restore the map. */
  lemma FatesRestoreExactly(trace: seq<Effect>, channels: seq<Channel>, maxVms: nat, taps: seq<Tap>, base: nat)
    requires RunsAs(trace, channels, maxVms, taps, base) && Removals(trace) == |Attributed(trace)|
    requires Fresh(channels[0].vms, taps, base) && Room(channels[0].vms, taps, maxVms) && Healthy(channels[0])
    ensures channels[|trace|].vms == channels[0].vms <==> Restoring(trace)
  {
    RestoredExactly(trace, channels, maxVms, taps, base);
    forall i | 0 <= i < |trace| && (Adds(trace[i]) || Removes(trace[i]))
      ensures trace[i].acted <==> Unbroken(trace, i) && Acts(trace[i].fate)
      ensures trace[i].ok <==> trace[i].acted && trace[i].fate.Answered?
    {
      ActsExactly(trace, channels, maxVms, taps, base, i);
      assert Moves(channels[i], trace[i], channels[i + 1], maxVms);
    }
  }

  /** If the channel still works and every removal was confirmed, the map is restored. */
  lemma HealthyRestores(trace: seq<Effect>, channels: seq<Channel>, maxVms: nat, taps: seq<Tap>, base: nat)
    requires RunsAs(trace, channels, maxVms, taps, base) && Fresh(channels[0].vms, taps, base)
    requires Removals(trace) == |Attributed(trace)| && AllRemoved(trace) && Healthy(channels[|trace|])
    ensures channels[|trace|].vms == channels[0].vms
  {
    RestoredUnlessLost(trace, channels, maxVms, taps, base);
    HealthyExactly(trace, channels, maxVms, |trace|);
    forall i | 0 <= i < |trace| && Adds(trace[i]) ensures !Lost(trace[i].ok, trace[i].acted) {
      assert Moves(channels[i], trace[i], channels[i + 1], maxVms);
    }
  }

  lemma {:induction false} NoneRemoves(trace: seq<Effect>)
    ensures Removals(trace) == 0 <==> forall i :: 0 <= i < |trace| ==> !Removes(trace[i])
  {
    if trace != [] {
      var n := |trace| - 1;
      NoneRemoves(trace[..n]);
      assert forall i :: 0 <= i < n ==> trace[..n][i] == trace[i];
    }
  }

  lemma {:induction false} FollowsAt(trace: seq<Effect>, taps: seq<Tap>, base: nat, i: nat)
    requires Orderly(trace, taps, base) && i < |trace|
    ensures MayFollow(trace[..i], trace[i], taps, base)
  {
    var n := |trace| - 1;
    if i < n {
      FollowsAt(trace[..n], taps, base, i);
      assert trace[..n][..i] == trace[..i];
    }
  }

  /** A run that sees every removal confirmed and still leaves an entry behind lost its very
      first registration: it attributed nothing. */
  lemma LostAddIsTheFirst(trace: seq<Effect>, channels: seq<Channel>, maxVms: nat, taps: seq<Tap>, base: nat)
    requires RunsAs(trace, channels, maxVms, taps, base)
    requires Removals(trace) == |Attributed(trace)| && AllRemoved(trace) && LostAdd(trace)
    ensures Attributed(trace) == [] && !Healthy(channels[|trace|])
  {
    var i :| 0 <= i < |trace| && Adds(trace[i]) && Lost(trace[i].ok, trace[i].acted);
    assert Moves(channels[i], trace[i], channels[i + 1], maxVms);
    HealthyExactly(trace, channels, maxVms, |trace|);
    HealthyExactly(trace, channels, maxVms, i + 1);
    FollowsAt(trace, taps, base, i);
    NoneRemoves(trace[..i]);
    forall j | 0 <= j < |trace| ensures !Removes(trace[j]) {
      if j < i {
        assert trace[..i][j] == trace[j];
      } else {
        HealthyExactly(trace, channels, maxVms, j);
        assert Moves(channels[j], trace[j], channels[j + 1], maxVms);
      }
    }
    NoneRemoves(trace);
  }

  lemma {:induction false} FirstCommandAdds(trace: seq<Effect>, taps: seq<Tap>, base: nat)
    requires Orderly(trace, taps, base) && Tried(trace) > 0
    ensures exists i :: 0 <= i < |trace| && Adds(trace[i]) && forall j :: 0 <= j < i ==> !trace[j].Control?
  {
    var n := |trace| - 1;
    if Tried(trace[..n]) > 0 {
      FirstCommandAdds(trace[..n], taps, base);
      var i :| 0 <= i < n && Adds(trace[..n][i]) && forall j :: 0 <= j < i ==> !trace[..n][j].Control?;
      assert forall j :: 0 <= j <= i ==> trace[..n][j] == trace[j];
    } else {
      NoCommandYet(trace[..n], taps, base);
      assert forall j :: 0 <= j < n ==> trace[..n][j] == trace[j];
    }
  }

  lemma {:induction false} NoCommandYet(trace: seq<Effect>, taps: seq<Tap>, base: nat)
    requires Orderly(trace, taps, base) && Tried(trace) == 0
    ensures forall j :: 0 <= j < |trace| ==> !trace[j].Control?
  {
    if trace != [] {
      var n := |trace| - 1;
      CountsInStep(trace[..n], taps, base);
      NoCommandYet(trace[..n], taps, base);
      assert forall j :: 0 <= j < n ==> trace[..n][j] == trace[j];
    }
  }

  // ---- how a run goes ------------------------------------------------------------------------

  function Spawns(n: nat): (es: seq<Effect>)
    ensures |es| == n && forall g :: 0 <= g < n ==> es[g] == Spawn(g)
  {
    seq(n, g requires 0 <= g < n => Spawn(g))
  }

  function Waits(n: nat): (es: seq<Effect>)
    ensures |es| == n && forall g :: 0 <= g < n ==> es[g] == Wait(g)
  {
    seq(n, g requires 0 <= g < n => Wait(g))
  }

  lemma SpawnsOneMore(before: seq<Effect>, g: nat)
    ensures before + Spawns(g) + [Spawn(g)] == before + Spawns(g + 1)
  {
  }

  lemma WaitsOneMore(before: seq<Effect>, g: nat)
    ensures before + Waits(g) + [Wait(g)] == before + Waits(g + 1)
  {
  }

  predicate Steadies(world: World)
  {
    world.provisions && world.starts && world.steadies
  }

  /** As far as the target comes. */
  function Reached(world: World): seq<Effect>
  {
    if !world.provisions then [Provision]
    else if !world.starts then [Provision, Start]
    else [Provision, Start, Steady]
  }

  /** The `j`-th command of a run that attributes: every tap is registered, then set running. */
  function CommandAt(taps: seq<Tap>, base: nat, j: nat): Command
    requires j < 2 * |taps|
  {
    if j % 2 == 0 then AddOf(taps[j / 2], base + j / 2) else State(base + j / 2, RUNNING)
  }

  ghost predicate Commands(controls: seq<Effect>, taps: seq<Tap>, base: nat)
  {
    && |controls| <= 2 * |taps|
    && forall j :: 0 <= j < |controls| ==> controls[j].Control? && controls[j].c == CommandAt(taps, base, j)
  }

  /** The first `n` commands were confirmed. */
  ghost predicate Granted(controls: seq<Effect>, n: nat)
  {
    n <= |controls| && forall j :: 0 <= j < n ==> controls[j].Control? && controls[j].ok
  }

  /** All commands are sent and confirmed, or all up to one that is not. */
  ghost predicate Registers(world: World, base: nat, failure: Option<Outcome>, controls: seq<Effect>)
  {
    && Commands(controls, world.taps, base)
    && match failure
       case None => |controls| == 2 * |world.taps| && Granted(controls, |controls|)
       case Some(outcome) =>
         && controls != [] && Granted(controls, |controls| - 1) && !controls[|controls| - 1].ok
         && outcome == if |controls| % 2 == 1 then RegisterError else StateError
  }

  ghost predicate AllTrue(steps: nat -> bool, n: nat)
  {
    forall g: nat :: g < n ==> steps(g)
  }

  /** The first step to fail is the `g`-th. */
  ghost predicate FailsFirst(steps: nat -> bool, g: nat, n: nat)
  {
    g < n && AllTrue(steps, g) && !steps(g)
  }

  /** The whole of the work: the gadgets are up before the workload starts, and it runs until the
      last of them is done. */
  function WholeWork(gadgets: nat): seq<Effect>
  {
    Spawns(gadgets) + [WorkloadStart] + Waits(gadgets) + [WorkloadStop, Report, Spans]
  }

  /** How far the work comes, and how it turns out. */
  ghost predicate Works(world: World, outcome: Outcome, work: seq<Effect>)
  {
    match outcome
    case SpawnError => exists g: nat :: FailsFirst(world.spawns, g, world.gadgets) && work == Spawns(g + 1)
    case WorkloadError =>
      AllTrue(world.spawns, world.gadgets) && !world.workloadStarts && work == Spawns(world.gadgets) + [WorkloadStart]
    case WaitError =>
      && AllTrue(world.spawns, world.gadgets) && world.workloadStarts
      && exists g: nat :: FailsFirst(world.waits, g, world.gadgets)
                && work == Spawns(world.gadgets) + [WorkloadStart] + Waits(g + 1) + [WorkloadStop]
    case SpansError => CanWork(world) && !world.spansRead && work == WholeWork(world.gadgets)
    case Completed => CanWork(world) && world.spansRead && work == WholeWork(world.gadgets)
    case _ => false
  }

  ghost predicate CanWork(world: World)
  {
    AllTrue(world.spawns, world.gadgets) && world.workloadStarts && AllTrue(world.waits, world.gadgets)
  }

  /** Removals, then the teardown. */
  ghost predicate Ends(ending: seq<Effect>)
  {
    && ending != [] && ending[|ending| - 1] == Teardown
    && forall i :: 0 <= i < |ending| - 1 ==> Removes(ending[i])
  }

  /** What leads to each outcome: every step before the one it names succeeded, that one did not,
      and nothing after it was tried but the cleanup. */
  ghost predicate Stages(world: World, base: nat, outcome: Outcome, controls: seq<Effect>, work: seq<Effect>,
                         ending: seq<Effect>)
  {
    match outcome
    case NotSteady => !Steadies(world) && controls == work == ending == []
    case NoTap => Steadies(world) && world.attribution && world.taps == [] && controls == work == [] && Ends(ending)
    case RegisterError => Attributes(world, base, Some(outcome), controls) && work == [] && Ends(ending)
    case StateError => Attributes(world, base, Some(outcome), controls) && work == [] && Ends(ending)
    case SpansError => Attributes(world, base, None, controls) && Works(world, outcome, work) && ending == []
    case TeardownError =>
      Attributes(world, base, None, controls) && Works(world, Completed, work) && !world.tearsDown && Ends(ending)
    case Completed =>
      Attributes(world, base, None, controls) && Works(world, outcome, work) && world.tearsDown && Ends(ending)
    case _ => Attributes(world, base, None, controls) && Works(world, outcome, work) && Ends(ending)
  }

  /** Attribution fails for want of a tap, or at a command. */
  ghost predicate GivesUp(world: World, base: nat, outcome: Outcome, controls: seq<Effect>)
  {
    if outcome.NoTap? then world.attribution && world.taps == [] && controls == []
    else (outcome.RegisterError? || outcome.StateError?) && Attributes(world, base, Some(outcome), controls)
  }

  ghost predicate Attributes(world: World, base: nat, failure: Option<Outcome>, controls: seq<Effect>)
  {
    && Steadies(world)
    && if world.attribution then world.taps != [] && Registers(world, base, failure, controls)
       else failure.None? && controls == []
  }

  /** The trace of a run with this outcome. */
  ghost predicate Goes(world: World, base: nat, outcome: Outcome, trace: seq<Effect>)
  {
    exists controls: seq<Effect>, work: seq<Effect>, ending: seq<Effect> ::
      trace == Reached(world) + controls + work + ending && Stages(world, base, outcome, controls, work, ending)
  }

  /** Every step of the run succeeded. */
  ghost predicate Succeeds(world: World, trace: seq<Effect>)
  {
    && Steadies(world)
    && (world.attribution ==> world.taps != [] && NoneRefused(trace))
    && CanWork(world) && world.spansRead && world.tearsDown
  }

  /** Every registration and state was confirmed. */
  ghost predicate NoneRefused(trace: seq<Effect>)
  {
    forall i :: 0 <= i < |trace| && trace[i].Control? && !Removes(trace[i]) ==> trace[i].ok
  }

  lemma NoneRefusedConcat(a: seq<Effect>, b: seq<Effect>)
    ensures NoneRefused(a + b) <==> NoneRefused(a) && NoneRefused(b)
  {
    if NoneRefused(a + b) {
      forall i | 0 <= i < |a| && a[i].Control? && !Removes(a[i]) ensures a[i].ok {
        assert (a + b)[i] == a[i];
      }
      forall i | 0 <= i < |b| && b[i].Control? && !Removes(b[i]) ensures b[i].ok {
        assert (a + b)[|a| + i] == b[i];
      }
    }
  }

  lemma CommandsRefused(controls: seq<Effect>, taps: seq<Tap>, base: nat)
    requires Commands(controls, taps, base) && controls != [] && !controls[|controls| - 1].ok
    ensures !NoneRefused(controls)
  {
    var i := |controls| - 1;
    assert controls[i].Control? && !Removes(controls[i]);
  }

  lemma WorkSendsNothing(world: World, outcome: Outcome, work: seq<Effect>)
    requires Works(world, outcome, work)
    ensures NoneRefused(work)
  {
    assert forall i :: 0 <= i < |work| ==> !work[i].Control?;
  }

  /** The parts of a trace that only the commands of the run can be refused in. */
  lemma RefusalsOfParts(world: World, controls: seq<Effect>, work: seq<Effect>, ending: seq<Effect>)
    requires NoneRefused(work) && (ending == [] || Ends(ending))
    ensures NoneRefused(Reached(world) + controls + work + ending) <==> NoneRefused(controls)
  {
    NoneRefusedConcat(Reached(world), controls);
    NoneRefusedConcat(Reached(world) + controls, work);
    NoneRefusedConcat(Reached(world) + controls + work, ending);
  }

  /** A run completes exactly when every step of it succeeds. */
  lemma CompletedExactly(world: World, base: nat, outcome: Outcome, trace: seq<Effect>)
    requires Goes(world, base, outcome, trace)
    ensures outcome.Completed? <==> Succeeds(world, trace)
  {
    var controls: seq<Effect>, work: seq<Effect>, ending: seq<Effect> :|
      trace == Reached(world) + controls + work + ending && Stages(world, base, outcome, controls, work, ending);
    if outcome.Completed? {
      WorkSendsNothing(world, outcome, work);
      RefusalsOfParts(world, controls, work, ending);
    } else if outcome.RegisterError? || outcome.StateError? {
      CommandsRefused(controls, world.taps, base);
      RefusalsOfParts(world, controls, work, ending);
    }
  }

  // ---- the run -------------------------------------------------------------------------------

  /** Every command in the trace met one of the world's fates. */
  ghost predicate Fated(trace: seq<Effect>, fate: nat -> Fate)
  {
    forall i :: 0 <= i < |trace| && trace[i].Control? ==> exists k :: trace[i].fate == fate(k)
  }

  class Run {
    const world: World
    const maxVms: nat
    /** The first handle this run may reserve. */
    const base: nat
    var trace: seq<Effect>
    var vms: map<nat, VmCtx>
    var next: nat
    var poisoned: bool
    var gone: bool
    var commands: nat
    ghost var channels: seq<Channel>

    constructor (world: World, maxVms: nat, channel: Channel)
      ensures this.world == world && this.maxVms == maxVms && base == channel.next
      ensures Started() && Now() == channel
    {
      this.world := world;
      this.maxVms := maxVms;
      vms, next, poisoned, gone := channel.vms, channel.next, channel.poisoned, channel.gone;
      base := channel.next;
      trace, commands := [], 0;
      channels := [channel];
    }

    /** The channel as it is now. */
    function Now(): Channel
      reads this
    {
      Channel(vms, next, poisoned, gone)
    }

    ghost predicate Started()
      reads this
    {
      trace == [] && channels == [Now()] && next == base
    }

    /** The trace and the channels make up the history of an orderly run since `before`. */
    ghost predicate Recorded(before: Channel)
      reads this
    {
      && RunsAs(trace, channels, maxVms, world.taps, base) && Fated(trace, world.fate)
      && channels[0] == before && channels[|trace|] == Now() && next == base + Tried(trace)
    }

    /** The state every phase before cleanup keeps. */
    ghost predicate AtWork(before: Channel, attributed: seq<nat>)
      reads this
    {
      Recorded(before) && NoCleanup(trace) && Attributed(trace) == attributed && Removals(trace) == 0
    }

    /** Nobody else's entries can be taken for this run's. */
    ghost predicate FreshSince(before: Channel)
      reads this
    {
      Fresh(before.vms, world.taps, base)
    }

    /** After the removals: exactly what the owner must have done for the map to be what it was,
        and exactly which fates do it. */
    ghost predicate RestoredAsDue(before: Channel)
      reads this
    {
      FreshSince(before) ==>
        && (vms == before.vms <==> Undone(trace))
        && (AllRemoved(trace) ==> (vms == before.vms <==> !LostAdd(trace)))
        && (AllRemoved(trace) && Healthy(Now()) ==> vms == before.vms)
        && (Room(before.vms, world.taps, maxVms) && Healthy(before) ==> (vms == before.vms <==> Restoring(trace)))
    }

    /** A command meets its fate. A poisoned client does not touch the stream, and when the
        owner is gone nobody acts. */
    method Transmit(c: Command) returns (fate: Fate, ok: bool, acted: bool)
      modifies this`vms, this`poisoned, this`gone, this`commands
      ensures fate == world.fate(old(commands))
      ensures Applies(old(vms), maxVms, c, acted, vms)
      ensures acted <==> !old(poisoned) && !old(gone) && Acts(fate) && Possible(old(vms), maxVms, c)
      ensures ok <==> acted && fate.Answered?
      ensures poisoned <==> old(poisoned) || fate.IoError?
      ensures gone <==> old(gone) || (!old(poisoned) && Leaves(fate))
    {
      fate, ok, acted := world.fate(commands), false, false;
      commands := commands + 1;
      if poisoned {
        return;
      }
      if !gone && Acts(fate) {
        acted := Act(c);
      }
      match fate {
        case IoError(_) => poisoned := true;
        case EndOfStream(_) => gone := true;
        case Answered(_, stays) =>
          ok := acted;
          gone := gone || !stays;
      }
    }

    /** The owner carries out a command if it can. */
    method Act(c: Command) returns (acted: bool)
      modifies this`vms
      ensures Applies(old(vms), maxVms, c, acted, vms) && (acted <==> Possible(old(vms), maxVms, c))
    {
      if !Possible(vms, maxVms, c) {
        return false;
      }
      match c {
        case Add(ifindex, handle, netns) =>
          vms := vms[ifindex := VmCtx(handle, netns, RUNNING)];
        case State(handle, state) =>
          var k :| k in vms && vms[k].vmId == handle;
          vms := vms[k := vms[k].(state := state)];
        case Remove(handle) =>
          var k :| k in vms && vms[k].vmId == handle;
          vms := vms - {k};
      }
      return true;
    }

    /** The same for a registration, which reserves the next handle first. */
    method Deliver(c: Command) returns (fate: Fate, ok: bool, acted: bool)
      requires c.Add? ==> c.handle == next
      modifies this`vms, this`next, this`poisoned, this`gone, this`commands
      ensures fate == world.fate(old(commands)) && Exchange(old(Now()), c, fate, ok, acted, Now(), maxVms)
    {
      if c.Add? {
        next := next + 1;
      }
      fate, ok, acted := Transmit(c);
    }

    /** One control command, on record. */
    method Send(c: Command, ghost before: Channel) returns (ok: bool, ghost e: Effect)
      requires Recorded(before) && MaySend(trace, c, world.taps, base)
      modifies this`trace, this`channels, this`vms, this`next, this`poisoned, this`gone, this`commands
      ensures Recorded(before)
      ensures trace == old(trace) + [e] && e.Control? && e.c == c && e.ok == ok
      ensures NoCleanup(old(trace)) && !c.Remove? ==> NoCleanup(trace)
      ensures Attributed(trace) == Attributed(old(trace)) + if c.Add? && ok then [c.handle] else []
      ensures Tried(trace) == Tried(old(trace)) + if c.Add? then 1 else 0
      ensures Removals(trace) == Removals(old(trace)) + if c.Remove? then 1 else 0
    {
      ghost var ch, earlier := Now(), trace;
      var fate, acted;
      fate, ok, acted := Deliver(c);
      e := Control(c, fate, ok, acted);
      Note(Control(c, fate, ok, acted), ch, before);
      NoCleanupOneMore(earlier, e);
    }

    /** Append an effect that has just happened. */
    method Note(e: Effect, ghost ch: Channel, ghost before: Channel)
      requires RunsAs(trace, channels, maxVms, world.taps, base) && Fated(trace, world.fate)
      requires channels[0] == before && channels[|trace|] == ch && ch.next == base + Tried(trace)
      requires MayFollow(trace, e, world.taps, base) && Moves(ch, e, Now(), maxVms)
      requires e.Control? ==> exists k :: e.fate == world.fate(k)
      modifies this`trace, this`channels
      ensures trace == old(trace) + [e] && Recorded(before)
      ensures Attributed(trace) == Attributed(old(trace)) + if Adds(e) && e.ok then [e.c.handle] else []
      ensures Tried(trace) == Tried(old(trace)) + if Adds(e) then 1 else 0
      ensures Removals(trace) == Removals(old(trace)) + if Removes(e) then 1 else 0
    {
      Longer(trace, channels, maxVms, world.taps, base, e, Now());
      CountsOneMore(trace, e);
      channels := channels + [Now()];
      trace := trace + [e];
    }

    /** Register every tap and drive it to RUNNING, stopping at the first failure. Whatever
        happens, the owner holds exactly what was added, confirmed or not. */
    method RegisterAll(ghost before: Channel)
        returns (attributed: seq<nat>, failure: Option<Outcome>, ghost controls: seq<Effect>)
      requires AtWork(before, []) && Tried(trace) == 0
      modifies this`trace, this`channels, this`vms, this`next, this`poisoned, this`gone, this`commands
      ensures AtWork(before, attributed)
      ensures trace == old(trace) + controls && Registers(world, base, failure, controls)
      ensures failure.None? ==> |attributed| == |world.taps|
      ensures world.taps != [] ==> Tried(trace) > 0
      ensures FreshSince(before) ==> Holds(vms, before.vms, world.taps, base, Held(trace))
    {
      attributed, failure, controls := RegisterEach(before);
      HoldsNow(before);
    }

    /** The first `m` commands are confirmed, which has registered `n` taps. */
    ghost predicate Registered(before: Channel, attributed: seq<nat>, earlier: seq<Effect>, controls: seq<Effect>,
                               n: nat, m: nat)
      reads this
    {
      && AtWork(before, attributed) && |attributed| == Tried(trace) == n <= |world.taps|
      && trace == earlier + controls && |controls| == m && Sent(controls, m)
    }

    ghost predicate Sent(controls: seq<Effect>, m: nat)
    {
      Commands(controls, world.taps, base) && Granted(controls, m)
    }

    method RegisterEach(ghost before: Channel)
        returns (attributed: seq<nat>, failure: Option<Outcome>, ghost controls: seq<Effect>)
      requires AtWork(before, []) && Tried(trace) == 0
      modifies this`trace, this`channels, this`vms, this`next, this`poisoned, this`gone, this`commands
      ensures AtWork(before, attributed)
      ensures trace == old(trace) + controls && Registers(world, base, failure, controls)
      ensures failure.None? ==> |attributed| == |world.taps|
      ensures world.taps != [] ==> Tried(trace) > 0
    {
      attributed, failure, controls := [], None, [];
      var i := 0;
      while i < |world.taps| && failure.None?
        invariant 0 <= i <= |world.taps| && Tried(trace) == i && trace == old(trace) + controls
        invariant AtWork(before, attributed)
        invariant failure.None? ==> Registered(before, attributed, old(trace), controls, i, 2 * i)
        invariant failure.Some? ==> i > 0 && Registers(world, base, failure, controls)
      {
        attributed, failure, controls := RegisterNext(before, attributed, old(trace), controls, i);
        i := i + 1;
      }
    }

    /** Register the next tap, and drive it to RUNNING. */
    method RegisterNext(ghost before: Channel, handles: seq<nat>, ghost earlier: seq<Effect>,
                        ghost sent: seq<Effect>, i: nat)
        returns (attributed: seq<nat>, failure: Option<Outcome>, ghost controls: seq<Effect>)
      requires Registered(before, handles, earlier, sent, i, 2 * i) && i < |world.taps|
      modifies this`trace, this`channels, this`vms, this`next, this`poisoned, this`gone, this`commands
      ensures AtWork(before, attributed) && Tried(trace) == i + 1 && trace == earlier + controls
      ensures failure.None? ==> Registered(before, attributed, earlier, controls, i + 1, 2 * i + 2)
      ensures failure.Some? ==> Registers(world, base, failure, controls)
    {
      hide AtWork;
      var handle;
      handle, controls := AddNext(before, handles, earlier, sent, i);
      if handle.None? {
        attributed, failure := handles, Some(RegisterError);
      } else {
        attributed := handles + [handle.value];
        var ok;
        ok, controls := RunNext(handle.value, before, attributed, earlier, controls, i);
        failure := if ok then None else Some(StateError);
      }
    }

    /** `e` is the next command, sent after the confirmed ones. */
    lemma CommandSent(sent: seq<Effect>, e: Effect, j: nat)
      requires |sent| == j < 2 * |world.taps| && Sent(sent, j)
      requires e.Control? && e.c == CommandAt(world.taps, base, j)
      ensures Sent(sent + [e], j) && (e.ok ==> Sent(sent + [e], j + 1))
    {
    }

    lemma CommandsOfTap(i: nat)
      requires i < |world.taps|
      ensures CommandAt(world.taps, base, 2 * i) == AddOf(world.taps[i], base + i)
      ensures CommandAt(world.taps, base, 2 * i + 1) == State(base + i, RUNNING)
    {
    }

    lemma Failed(sent: seq<Effect>, e: Effect, j: nat)
      requires |sent| == j && Sent(sent + [e], j) && e.Control? && !e.ok
      ensures Registers(world, base, Some(if j % 2 == 0 then RegisterError else StateError), sent + [e])
    {
    }

    method AddNext(ghost before: Channel, handles: seq<nat>, ghost earlier: seq<Effect>,
                   ghost sent: seq<Effect>, i: nat)
        returns (handle: Option<nat>, ghost controls: seq<Effect>)
      requires Registered(before, handles, earlier, sent, i, 2 * i) && i < |world.taps|
      modifies this`trace, this`channels, this`vms, this`next, this`poisoned, this`gone, this`commands
      ensures AtWork(before, if handle.Some? then handles + [handle.value] else handles)
      ensures Tried(trace) == i + 1 && trace == earlier + controls && |controls| == 2 * i + 1
      ensures handle.Some? ==> handle.value == base + i && Sent(controls, 2 * i + 1)
      ensures handle.None? ==> Registers(world, base, Some(RegisterError), controls)
    {
      hide AtWork;
      ghost var e;
      handle, e := RegisterTap(before, handles);
      CommandsOfTap(i);
      CommandSent(sent, e, 2 * i);
      controls := sent + [e];
      if handle.None? {
        Failed(sent, e, 2 * i);
      }
    }

    method RunNext(handle: nat, ghost before: Channel, ghost attributed: seq<nat>, ghost earlier: seq<Effect>,
                   ghost sent: seq<Effect>, ghost i: nat)
        returns (ok: bool, ghost controls: seq<Effect>)
      requires AtWork(before, attributed) && |attributed| == Tried(trace) == i + 1 <= |world.taps| && handle == base + i
      requires trace == earlier + sent && |sent| == 2 * i + 1 && Sent(sent, 2 * i + 1)
      modifies this`trace, this`channels, this`vms, this`next, this`poisoned, this`gone, this`commands
      ensures AtWork(before, attributed) && Tried(trace) == i + 1 && trace == earlier + controls
      ensures |controls| == 2 * i + 2
      ensures ok ==> Sent(controls, 2 * i + 2)
      ensures !ok ==> Registers(world, base, Some(StateError), controls)
    {
      hide AtWork;
      ghost var e;
      ok, e := SetRunning(handle, before, attributed);
      CommandsOfTap(i);
      CommandSent(sent, e, 2 * i + 1);
      controls := sent + [e];
      if !ok {
        Failed(sent, e, 2 * i + 1);
      }
    }

    /** Register the next tap under a newly reserved handle. */
    method RegisterTap(ghost before: Channel, attributed: seq<nat>) returns (handle: Option<nat>, ghost e: Effect)
      requires AtWork(before, attributed) && Tried(trace) == |attributed| < |world.taps|
      modifies this`trace, this`channels, this`vms, this`next, this`poisoned, this`gone, this`commands
      ensures AtWork(before, if handle.Some? then attributed + [handle.value] else attributed)
      ensures Tried(trace) == |attributed| + 1 && trace == old(trace) + [e]
      ensures e.Control? && e.c == AddOf(world.taps[|attributed|], base + |attributed|) && (e.ok <==> handle.Some?)
      ensures handle.Some? ==> handle.value == base + |attributed|
    {
      var h := next;
      var ok;
      ok, e := Send(AddOf(world.taps[|attributed|], h), before);
      handle := if ok then Some(h) else None;
    }

    method SetRunning(handle: nat, ghost before: Channel, ghost attributed: seq<nat>)
        returns (ok: bool, ghost e: Effect)
      requires AtWork(before, attributed) && Tried(trace) == |attributed| > 0 && handle == base + |attributed| - 1
      modifies this`trace, this`channels, this`vms, this`next, this`poisoned, this`gone, this`commands
      ensures AtWork(before, attributed) && Tried(trace) == old(Tried(trace))
      ensures trace == old(trace) + [e] && e.Control? && e.c == State(handle, RUNNING) && e.ok == ok
    {
      ok, e := Send(State(handle, RUNNING), before);
    }

    lemma HoldsNow(before: Channel)
      requires Recorded(before)
      ensures FreshSince(before) ==> Holds(vms, before.vms, world.taps, base, Held(trace))
    {
      if FreshSince(before) {
        OwnerHolds(trace, channels, maxVms, world.taps, base);
      }
    }

    /** After `work`, the first `i` of the attributed handles have been tried. */
    ghost predicate Removing(before: Channel, attributed: seq<nat>, work: seq<Effect>, removals: seq<Effect>, i: nat)
      reads this
    {
      && i <= |attributed| && Recorded(before) && Attributed(trace) == attributed && Removals(trace) == i
      && trace == work + removals && Deregisters(removals, attributed[..i])
    }

    /** `deregister_all`: one attempt per handle, whether or not it succeeds. */
    method DeregisterAll(attributed: seq<nat>, ghost before: Channel) returns (ghost removals: seq<Effect>)
      requires AtWork(before, attributed)
      modifies this`trace, this`channels, this`vms, this`next, this`poisoned, this`gone, this`commands
      ensures Recorded(before) && trace == old(trace) + removals && Deregisters(removals, attributed)
      ensures Attributed(trace) == attributed && Removals(trace) == |attributed| && Tried(trace) == old(Tried(trace))
    {
      ghost var work := trace;
      removals := [];
      for i := 0 to |attributed|
        invariant Removing(before, attributed, work, removals, i) && Tried(trace) == Tried(work)
      {
        removals := RemoveOne(attributed, i, before, work, removals);
      }
      assert attributed[..|attributed|] == attributed;
    }

    method RemoveOne(attributed: seq<nat>, i: nat, ghost before: Channel, ghost work: seq<Effect>,
                     ghost earlier: seq<Effect>)
        returns (ghost removals: seq<Effect>)
      requires i < |attributed| && Removing(before, attributed, work, earlier, i)
      modifies this`trace, this`channels, this`vms, this`next, this`poisoned, this`gone, this`commands
      ensures Removing(before, attributed, work, removals, i + 1) && Tried(trace) == old(Tried(trace))
    {
      ghost var e := SendRemoval(attributed, i, before);
      DeregistersOneMore(earlier, attributed, i, e);
      removals := earlier + [e];
    }

    method SendRemoval(attributed: seq<nat>, i: nat, ghost before: Channel) returns (ghost e: Effect)
      requires Recorded(before) && Attributed(trace) == attributed && Removals(trace) == i < |attributed|
      modifies this`trace, this`channels, this`vms, this`next, this`poisoned, this`gone, this`commands
      ensures Recorded(before) && trace == old(trace) + [e] && e.Control? && e.c == Remove(attributed[i])
      ensures Attributed(trace) == attributed && Removals(trace) == i + 1 && Tried(trace) == old(Tried(trace))
    {
      HandleAt(trace, world.taps, base, i);
      var ok;
      ok, e := Send(Remove(attributed[i]), before);
    }

    /** Deregister everything, then tear down. */
    method CleanUp(attributed: seq<nat>, ghost before: Channel) returns (tornDown: bool, ghost ending: seq<Effect>)
      requires AtWork(before, attributed)
      modifies this`trace, this`channels, this`vms, this`next, this`poisoned, this`gone, this`commands
      ensures Recorded(before) && CleanedUp(trace) && RestoredAsDue(before) && Tried(trace) == old(Tried(trace))
      ensures trace == old(trace) + ending && Ends(ending) && tornDown == world.tearsDown
    {
      hide CleanedUp, RestoredAsDue;
      StillAtWork(before, attributed);
      ghost var work := trace;
      ghost var removals := DeregisterAll(attributed, before);
      Note(Teardown, Now(), before);
      ending := removals + [Teardown];
      Cleaned(work, removals, attributed);
      RestoredNow(before);
      tornDown := world.tearsDown;
    }

    lemma Cleaned(work: seq<Effect>, removals: seq<Effect>, handles: seq<nat>)
      requires NoCleanup(work) && Attributed(work) == handles && Deregisters(removals, handles)
      ensures CleanedUp(work + removals + [Teardown]) && Ends(removals + [Teardown])
      ensures work + removals + [Teardown] == work + (removals + [Teardown])
    {
    }

    lemma RestoredNow(before: Channel)
      requires Recorded(before) && Removals(trace) == |Attributed(trace)|
      ensures RestoredAsDue(before)
    {
      if FreshSince(before) {
        RestoredExactly(trace, channels, maxVms, world.taps, base);
        if AllRemoved(trace) {
          RestoredUnlessLost(trace, channels, maxVms, world.taps, base);
          if Healthy(Now()) {
            HealthyRestores(trace, channels, maxVms, world.taps, base);
          }
        }
        if Room(before.vms, world.taps, maxVms) && Healthy(before) {
          FatesRestoreExactly(trace, channels, maxVms, world.taps, base);
        }
      }
    }

    /** One step of the work, which sends no command. */
    method Work(e: Effect, ghost before: Channel, ghost attributed: seq<nat>)
      requires AtWork(before, attributed) && !e.Control? && !e.Teardown?
      modifies this`trace, this`channels
      ensures AtWork(before, attributed) && Tried(trace) == old(Tried(trace)) && trace == old(trace) + [e]
    {
      Note(e, Now(), before);
    }

    method SpawnAll(ghost before: Channel, ghost attributed: seq<nat>) returns (ok: bool, ghost g: nat)
      requires AtWork(before, attributed)
      modifies this`trace, this`channels
      ensures AtWork(before, attributed) && Tried(trace) == old(Tried(trace))
      ensures ok ==> AllTrue(world.spawns, world.gadgets) && trace == old(trace) + Spawns(world.gadgets)
      ensures !ok ==> FailsFirst(world.spawns, g, world.gadgets) && trace == old(trace) + Spawns(g + 1)
    {
      hide AtWork;
      for n := 0 to world.gadgets
        invariant AtWork(before, attributed) && Tried(trace) == old(Tried(trace))
        invariant AllTrue(world.spawns, n) && trace == old(trace) + Spawns(n)
      {
        SpawnsOneMore(old(trace), n);
        Work(Spawn(n), before, attributed);
        if !world.spawns(n) {
          return false, n;
        }
      }
      return true, 0;
    }

    method WaitAll(ghost before: Channel, ghost attributed: seq<nat>) returns (ok: bool, ghost g: nat)
      requires AtWork(before, attributed)
      modifies this`trace, this`channels
      ensures AtWork(before, attributed) && Tried(trace) == old(Tried(trace))
      ensures ok ==> AllTrue(world.waits, world.gadgets) && trace == old(trace) + Waits(world.gadgets)
      ensures !ok ==> FailsFirst(world.waits, g, world.gadgets) && trace == old(trace) + Waits(g + 1) + [WorkloadStop]
    {
      hide AtWork;
      for n := 0 to world.gadgets
        invariant AtWork(before, attributed) && Tried(trace) == old(Tried(trace))
        invariant AllTrue(world.waits, n) && trace == old(trace) + Waits(n)
      {
        WaitsOneMore(old(trace), n);
        Work(Wait(n), before, attributed);
        if !world.waits(n) {
          Work(WorkloadStop, before, attributed);
          return false, n;
        }
      }
      return true, 0;
    }

    /** Drive one run. It completes exactly when every step succeeds; any other outcome names the
        first that did not. However it goes after steady, unless the spans cannot be read, every
        attributed handle is removed exactly once and in order, and then the target is torn
        down exactly once. At every exit the owner holds exactly what it carried out and did not
        undo, and after a cleanup its map is what it was exactly when it is due. */
    method ExecuteRun() returns (outcome: Outcome)
      requires Started()
      modifies this`trace, this`channels, this`vms, this`next, this`poisoned, this`gone, this`commands
      ensures Recorded(old(Now()))
      ensures Goes(world, base, outcome, trace) && (outcome.Completed? <==> Succeeds(world, trace))
      ensures outcome.NotSteady? <==> !Steadies(world)
      ensures outcome.SpansError? ==> !world.spansRead
      ensures outcome.NotSteady? || outcome.SpansError? ==> NoCleanup(trace)
      ensures !outcome.NotSteady? && !outcome.SpansError? ==> CleanedUp(trace) && RestoredAsDue(old(Now()))
      ensures Steadies(world) && world.attribution && world.taps != [] ==> Tried(trace) > 0
      ensures FreshSince(old(Now())) ==> Holds(vms, old(vms), world.taps, base, Held(trace))
    {
      ghost var before := Now();
      outcome := Proceed(before);
      CompletedExactly(world, base, outcome, trace);
      HoldsNow(before);
    }

    method Proceed(ghost before: Channel) returns (outcome: Outcome)
      requires Started() && before == Now()
      modifies this`trace, this`channels, this`vms, this`next, this`poisoned, this`gone, this`commands
      ensures Recorded(before) && Goes(world, base, outcome, trace)
      ensures outcome.NotSteady? <==> !Steadies(world)
      ensures outcome.SpansError? ==> !world.spansRead
      ensures outcome.NotSteady? || outcome.SpansError? ==> NoCleanup(trace)
      ensures !outcome.NotSteady? && !outcome.SpansError? ==> CleanedUp(trace) && RestoredAsDue(before)
      ensures Steadies(world) && world.attribution && world.taps != [] ==> Tried(trace) > 0
    {
      var steady := ReachSteady(before);
      if !steady {
        NeverSteady(trace);
        outcome := NotSteady;
      } else {
        outcome := AfterSteady(before);
      }
    }

    method AfterSteady(ghost before: Channel) returns (outcome: Outcome)
      requires AtWork(before, []) && Tried(trace) == 0 && Steadies(world) && trace == Reached(world)
      modifies this`trace, this`channels, this`vms, this`next, this`poisoned, this`gone, this`commands
      ensures Recorded(before) && Goes(world, base, outcome, trace)
      ensures !outcome.NotSteady? && (outcome.SpansError? ==> !world.spansRead && NoCleanup(trace))
      ensures !outcome.SpansError? ==> CleanedUp(trace) && RestoredAsDue(before)
      ensures world.attribution && world.taps != [] ==> Tried(trace) > 0
    {
      hide AtWork;
      var attributed, failure;
      ghost var controls;
      attributed, failure, controls := Attribute(before);
      if failure.Some? {
        outcome := failure.value;
        var _, ending := CleanUp(attributed, before);
        GaveUp(outcome, trace, controls, ending);
      } else {
        outcome := Observe(before, attributed, controls);
      }
    }

    /** Register what there is to attribute. */
    method Attribute(ghost before: Channel)
        returns (attributed: seq<nat>, failure: Option<Outcome>, ghost controls: seq<Effect>)
      requires AtWork(before, []) && Tried(trace) == 0 && Steadies(world)
      modifies this`trace, this`channels, this`vms, this`next, this`poisoned, this`gone, this`commands
      ensures AtWork(before, attributed) && trace == old(trace) + controls
      ensures failure.None? ==> Attributes(world, base, failure, controls)
      ensures failure.Some? ==> GivesUp(world, base, failure.value, controls)
      ensures world.attribution && world.taps != [] ==> Tried(trace) > 0
    {
      attributed, failure, controls := [], None, [];
      if world.attribution {
        if world.taps == [] {
          failure := Some(NoTap);
        } else {
          attributed, failure, controls := RegisterAll(before);
        }
      }
    }

    /** The work of a run that attributes what it should, and its cleanup. */
    method Observe(ghost before: Channel, attributed: seq<nat>, ghost controls: seq<Effect>) returns (outcome: Outcome)
      requires AtWork(before, attributed) && trace == Reached(world) + controls
      requires Attributes(world, base, None, controls)
      modifies this`trace, this`channels, this`vms, this`next, this`poisoned, this`gone, this`commands
      ensures Recorded(before) && Goes(world, base, outcome, trace) && Tried(trace) == old(Tried(trace))
      ensures !outcome.NotSteady? && (outcome.SpansError? ==> !world.spansRead && NoCleanup(trace))
      ensures !outcome.SpansError? ==> CleanedUp(trace) && RestoredAsDue(before)
    {
      hide AtWork, Attributes, Works, Goes;
      ghost var work;
      outcome, work := DriveWorkload(before, attributed);
      OutcomeOfWork(outcome, work);
      if outcome.SpansError? {
        StillAtWork(before, attributed);
        SpansUnread(trace, controls, work);
      } else {
        var tornDown;
        ghost var ending;
        tornDown, ending := CleanUp(attributed, before);
        Concluded(outcome, tornDown, trace, controls, work, ending);
        if outcome.Completed? && !tornDown {
          outcome := TeardownError;
        }
      }
    }

    lemma OutcomeOfWork(outcome: Outcome, work: seq<Effect>)
      requires Works(world, outcome, work)
      ensures outcome in {SpawnError, WorkloadError, WaitError, SpansError, Completed}
      ensures outcome.SpansError? ==> !world.spansRead
    {
    }

    lemma StillAtWork(before: Channel, attributed: seq<nat>)
      requires AtWork(before, attributed)
      ensures Recorded(before) && NoCleanup(trace) && Attributed(trace) == attributed
    {
    }

    /** A run in which attribution, work and cleanup have gone so. */
    lemma Concluded(outcome: Outcome, tornDown: bool, all: seq<Effect>, controls: seq<Effect>, work: seq<Effect>,
                    ending: seq<Effect>)
      requires all == Reached(world) + controls + work + ending && tornDown == world.tearsDown
      requires Attributes(world, base, None, controls) && Works(world, outcome, work) && Ends(ending)
      requires !outcome.SpansError?
      ensures Goes(world, base, if outcome.Completed? && !tornDown then TeardownError else outcome, all)
    {
      var last := if outcome.Completed? && !tornDown then TeardownError else outcome;
      assert Stages(world, base, last, controls, work, ending);
    }

    lemma GaveUp(outcome: Outcome, all: seq<Effect>, controls: seq<Effect>, ending: seq<Effect>)
      requires Steadies(world) && all == Reached(world) + controls + ending
      requires GivesUp(world, base, outcome, controls) && Ends(ending)
      ensures Goes(world, base, outcome, all)
    {
      assert all == Reached(world) + controls + [] + ending;
      assert Stages(world, base, outcome, controls, [], ending);
    }

    lemma SpansUnread(all: seq<Effect>, controls: seq<Effect>, work: seq<Effect>)
      requires all == Reached(world) + controls + work
      requires Attributes(world, base, None, controls) && Works(world, SpansError, work)
      ensures Goes(world, base, SpansError, all)
    {
      assert all == Reached(world) + controls + work + [];
      assert Stages(world, base, SpansError, controls, work, []);
    }

    lemma NeverSteady(all: seq<Effect>)
      requires !Steadies(world) && all == Reached(world)
      ensures Goes(world, base, NotSteady, all)
    {
      assert all == Reached(world) + [] + [] + [];
      assert Stages(world, base, NotSteady, [], [], []);
    }

    lemma StartsAtWork(before: Channel)
      requires Started() && before == Now()
      ensures AtWork(before, []) && Tried(trace) == 0
    {
    }

    method ReachSteady(ghost before: Channel) returns (ok: bool)
      requires Started() && before == Now()
      modifies this`trace, this`channels
      ensures AtWork(before, []) && Tried(trace) == 0 && (ok <==> Steadies(world)) && trace == Reached(world)
    {
      hide AtWork;
      StartsAtWork(before);
      ok := false;
      Work(Provision, before, []);
      if world.provisions {
        Work(Start, before, []);
        if world.starts {
          Work(Steady, before, []);
          ok := world.steadies;
        }
      }
    }

    /** Spawn the gadgets, run the workload across the window, and read the spans. */
    method DriveWorkload(ghost before: Channel, ghost attributed: seq<nat>)
        returns (outcome: Outcome, ghost work: seq<Effect>)
      requires AtWork(before, attributed)
      modifies this`trace, this`channels
      ensures AtWork(before, attributed) && Tried(trace) == old(Tried(trace))
      ensures trace == old(trace) + work && Works(world, outcome, work)
    {
      hide AtWork;
      var ok;
      ghost var g;
      ok, g := SpawnAll(before, attributed);
      if !ok {
        outcome, work := SpawnError, Spawns(g + 1);
      } else {
        Work(WorkloadStart, before, attributed);
        work := Spawns(world.gadgets) + [WorkloadStart];
        if !world.workloadStarts {
          outcome := WorkloadError;
        } else {
          ghost var rest;
          outcome, rest := Window(before, attributed, work);
          Chained(old(trace), Spawns(world.gadgets), WorkloadStart, rest);
          work := work + rest;
        }
      }
    }

    lemma Chained(earlier: seq<Effect>, a: seq<Effect>, e: Effect, rest: seq<Effect>)
      ensures earlier + a + [e] + rest == earlier + (a + [e] + rest)
    {
    }

    /** Wait for the gadgets while the workload runs, stop it, and read what is left to read. */
    method Window(ghost before: Channel, ghost attributed: seq<nat>, ghost started: seq<Effect>)
        returns (outcome: Outcome, ghost rest: seq<Effect>)
      requires AtWork(before, attributed)
      requires AllTrue(world.spawns, world.gadgets) && world.workloadStarts
      requires started == Spawns(world.gadgets) + [WorkloadStart]
      modifies this`trace, this`channels
      ensures AtWork(before, attributed) && Tried(trace) == old(Tried(trace))
      ensures trace == old(trace) + rest && Works(world, outcome, started + rest)
    {
      hide AtWork, Works;
      var ok;
      ghost var g;
      ok, g := WaitAll(before, attributed);
      if !ok {
        outcome, rest := WaitError, Waits(g + 1) + [WorkloadStop];
        WaitFails(started, g);
      } else {
        outcome := Finish(before, attributed);
        rest := Waits(world.gadgets) + [WorkloadStop, Report, Spans];
        WaitsEnd(started, outcome);
      }
    }

    lemma WaitFails(started: seq<Effect>, g: nat)
      requires AllTrue(world.spawns, world.gadgets) && world.workloadStarts && FailsFirst(world.waits, g, world.gadgets)
      requires started == Spawns(world.gadgets) + [WorkloadStart]
      ensures Works(world, WaitError, started + (Waits(g + 1) + [WorkloadStop]))
    {
      assert started + (Waits(g + 1) + [WorkloadStop]) == started + Waits(g + 1) + [WorkloadStop];
    }

    lemma WaitsEnd(started: seq<Effect>, outcome: Outcome)
      requires CanWork(world) && outcome == (if world.spansRead then Completed else SpansError)
      requires started == Spawns(world.gadgets) + [WorkloadStart]
      ensures Works(world, outcome, started + (Waits(world.gadgets) + [WorkloadStop, Report, Spans]))
    {
      var rest := Waits(world.gadgets) + [WorkloadStop, Report, Spans];
      assert started + rest == started + Waits(world.gadgets) + [WorkloadStop, Report, Spans];
    }

    method Finish(ghost before: Channel, ghost attributed: seq<nat>) returns (outcome: Outcome)
      requires AtWork(before, attributed)
      modifies this`trace, this`channels
      ensures AtWork(before, attributed) && Tried(trace) == old(Tried(trace))
      ensures trace == old(trace) + [WorkloadStop, Report, Spans]
      ensures outcome == if world.spansRead then Completed else SpansError
    {
      hide AtWork;
      Work(WorkloadStop, before, attributed);
      Work(Report, before, attributed);
      Work(Spans, before, attributed);
      outcome := if world.spansRead then Completed else SpansError;
    }
  }

  /** The run that shows it: the owner adds the first tap's entry and dies before answering. The
      run fails, no removal is owed and none refused, the channel is not poisoned, and the entry
      stays. */
  method LostRegistration(tap: Tap, channel: Channel, maxVms: nat) returns (run: Run, outcome: Outcome)
    requires Healthy(channel) && Fresh(channel.vms, [tap], channel.next) && |channel.vms| < maxVms
    ensures CleanedUp(run.trace) && AllRemoved(run.trace) && Attributed(run.trace) == []
    ensures !run.poisoned && run.vms != channel.vms
    ensures run.vms.Keys == channel.vms.Keys + {tap.ifindex} && run.vms[tap.ifindex].vmId == channel.next
  {
    hide Goes, Succeeds, Undone, LostAdd, CleanedUp;
    var world := World(true, true, true, true, [tap], 0, (g: nat) => true, true, (g: nat) => true, true, true,
                       (k: nat) => EndOfStream(true));
    run := new Run(world, maxVms, channel);
    outcome := run.ExecuteRun();
    FirstCommandAdds(run.trace, world.taps, run.base);
    NothingConfirmed(run.trace, run.channels, maxVms, world.taps, run.base);
    OnlyTheTap(run.vms, channel.vms, tap, run.base, Held(run.trace));
  }

  /** When every command meets the end of the stream, nothing is confirmed. */
  lemma {:induction false} NothingConfirmed(trace: seq<Effect>, channels: seq<Channel>, maxVms: nat, taps: seq<Tap>,
                                            base: nat)
    requires RunsAs(trace, channels, maxVms, taps, base)
    requires forall i :: 0 <= i < |trace| && trace[i].Control? ==> trace[i].fate.EndOfStream?
    ensures Attributed(trace) == [] && Removals(trace) == 0 && channels[|trace|].poisoned == channels[0].poisoned
    ensures AllRemoved(trace)
  {
    if trace != [] {
      var n := |trace| - 1;
      Shorter(trace, channels, maxVms, taps, base);
      NothingConfirmed(trace[..n], channels[..n + 1], maxVms, taps, base);
    }
    NoneRemoves(trace);
  }

  lemma OnlyTheTap(vms: map<nat, VmCtx>, before: map<nat, VmCtx>, tap: Tap, base: nat, held: set<nat>)
    requires Holds(vms, before, [tap], base, held) && vms != before && Fresh(before, [tap], base)
    ensures vms.Keys == before.Keys + {tap.ifindex} && vms[tap.ifindex].vmId == base
  {
    RestoredIffNoneHeld(vms, before, [tap], base, held);
    var i :| i in held;
    assert HeldAt(vms, [tap], base, i);
  }
}
