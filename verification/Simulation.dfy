/** The classes against the protocol: what becomes of one command seen from outside is exactly
    what the attribution system can do with it, and a whole run is one path of that system. */
module Simulation {
  import opened Attribution
  import opened Channels
  import opened Options
  import opened Owner
  import opened Powers
  import opened Session
  import opened Wire
  import L = Lifecycle

  // ---- paths -----------------------------------------------------------------------------------

  /** Consecutive steps of the system. */
  ghost predicate Path(states: seq<System>, events: seq<Event>, maxVms: nat)
  {
    |states| == |events| + 1 && forall i :: 0 <= i < |events| ==> Step(states[i], events[i], maxVms, states[i + 1])
  }

  /** Some path leads from `s` to `s'`. */
  ghost predicate Leads(s: System, s': System, maxVms: nat)
  {
    exists states, events :: Path(states, events, maxVms) && states[0] == s && states[|events|] == s'
  }

  /** The `b`-th event begins `call`, and no other begins anything. */
  ghost predicate OneCall(events: seq<Event>, call: Call, b: nat)
  {
    && b < |events| && events[b].Begin? && events[b].call == call
    && forall i :: 0 <= i < |events| && i != b ==> !events[i].Begin?
  }

  /** Some path with this one call leads from `s` to `s'`. */
  ghost predicate Calls(s: System, call: Call, s': System, maxVms: nat)
  {
    exists states, events, b ::
      Path(states, events, maxVms) && states[0] == s && states[|events|] == s' && OneCall(events, call, b)
  }

  lemma CallsLead(s: System, call: Call, s': System, maxVms: nat)
    requires Calls(s, call, s', maxVms)
    ensures Leads(s, s', maxVms)
  {
  }

  lemma BeginCalls(s: System, call: Call, write: Write, s': System, maxVms: nat)
    requires Begins(s, call, write, s')
    ensures Calls(s, call, s', maxVms)
  {
    var states, events := [s, s'], [Begin(call, write)];
    assert Path(states, events, maxVms) && OneCall(events, call, 0);
  }

  lemma ThenStep(s: System, call: Call, t: System, e: Event, s': System, maxVms: nat)
    requires Calls(s, call, t, maxVms) && Step(t, e, maxVms, s') && !e.Begin?
    ensures Calls(s, call, s', maxVms)
  {
    var states, events, b :|
      Path(states, events, maxVms) && states[0] == s && states[|events|] == t && OneCall(events, call, b);
    OneMore(states, events, e, s', maxVms);
    OneCallStill(events, call, b, e);
    assert (states + [s'])[|events + [e]|] == s';
  }

  lemma OneMore(states: seq<System>, events: seq<Event>, e: Event, s': System, maxVms: nat)
    requires Path(states, events, maxVms) && Step(states[|events|], e, maxVms, s')
    ensures Path(states + [s'], events + [e], maxVms)
  {
    var n, all, allEvents := |events|, states + [s'], events + [e];
    forall i | 0 <= i < |allEvents| ensures Step(all[i], allEvents[i], maxVms, all[i + 1]) {
      if i < n {
        assert Step(states[i], events[i], maxVms, states[i + 1]);
      }
    }
  }

  lemma OneCallStill(events: seq<Event>, call: Call, b: nat, e: Event)
    requires OneCall(events, call, b) && !e.Begin?
    ensures OneCall(events + [e], call, b)
  {
  }

  lemma LeadsOn(s: System, t: System, s': System, maxVms: nat)
    requires Leads(s, t, maxVms) && Leads(t, s', maxVms)
    ensures Leads(s, s', maxVms)
  {
    var states, events :| Path(states, events, maxVms) && states[0] == s && states[|events|] == t;
    var more, moreEvents :| Path(more, moreEvents, maxVms) && more[0] == t && more[|moreEvents|] == s';
    Joined(states, events, more, moreEvents, maxVms);
    assert (states + more[1..])[|events + moreEvents|] == s';
  }

  lemma Joined(states: seq<System>, events: seq<Event>, more: seq<System>, moreEvents: seq<Event>, maxVms: nat)
    requires Path(states, events, maxVms) && Path(more, moreEvents, maxVms) && states[|events|] == more[0]
    ensures Path(states + more[1..], events + moreEvents, maxVms)
  {
    var n, all, allEvents := |events|, states + more[1..], events + moreEvents;
    forall i | 0 <= i < |allEvents| ensures Step(all[i], allEvents[i], maxVms, all[i + 1]) {
      if i < n {
        assert Step(states[i], events[i], maxVms, states[i + 1]);
      } else {
        assert Step(more[i - n], moreEvents[i - n], maxVms, more[i - n + 1]);
      }
    }
  }

  // ---- between commands ------------------------------------------------------------------------

  /** Between commands: no line the owner might still serve, and no answer outstanding unless the
      client is poisoned. */
  ghost predicate AtRest(s: System)
  {
    s.phase.Idle? && (s.closed || s.requests == []) && (s.poisoned || s.replies == [])
  }

  /** The channel of a system. Whether the owner has gone makes no difference to a poisoned
      client. */
  ghost predicate Coupled(s: System, ch: Channel)
  {
    && s.vms == ch.vms && s.next == ch.next && s.poisoned == ch.poisoned
    && (!s.poisoned ==> s.closed == ch.gone)
  }

  /** The successes so far, with this one if it is one. */
  ghost function SuccessesAfter(s: System, c: Command, ok: bool): seq<(Command, nat)>
  {
    if ok then s.confirmed + [(c, |s.applied|)] else s.confirmed
  }

  /** At rest again after a command, with the map and the flags of `ch`, the command reported as
      successful exactly if `ok`, and carried out exactly if `acted`. */
  ghost predicate After(s: System, c: Command, ok: bool, acted: bool, ch: Channel, s': System)
  {
    && AtRest(s') && Coupled(s', ch) && s'.confirmed == SuccessesAfter(s, c, ok)
    && s'.applied == s.applied + if acted then [c] else []
  }

  // ---- every fate is a path ----------------------------------------------------------------------

  lemma CallParses(s: System, call: Call)
    requires TypedCall(s, call)
    ensures ParseCommand(Line(CommandOf(s, call))) == Ok(CommandOf(s, call))
  {
    WireRoundTrip(CommandOf(s, call));
  }

  /** The client has written its line and waits. */
  ghost function Asked(s: System, call: Call): System
  {
    var c := CommandOf(s, call);
    Reserve(s, call).(phase := Waiting(c, RowOf(s, call), |s.applied|), requests := s.requests + [c],
                      sent := s.sent + [c])
  }

  /** The owner has served the line, and its reply is on the way or lost. */
  ghost function Served(s: System, call: Call, acted: bool, vms: map<nat, VmCtx>, replies: seq<Reply>): System
  {
    Asked(s, call).(requests := [], vms := vms, replies := replies,
                    applied := if acted then s.applied + [CommandOf(s, call)] else s.applied)
  }

  lemma AskedCalls(s: System, call: Call, maxVms: nat)
    requires AtRest(s) && !s.poisoned && TypedCall(s, call)
    ensures Calls(s, call, Asked(s, call), maxVms)
  {
    BeginCalls(s, call, Written, Asked(s, call), maxVms);
  }

  lemma ServedCalls(s: System, call: Call, acted: bool, vms: map<nat, VmCtx>, message: string, replyLost: bool,
                    maxVms: nat)
    requires AtRest(s) && !s.poisoned && !s.closed && TypedCall(s, call)
    requires Applies(s.vms, maxVms, CommandOf(s, call), acted, vms)
    ensures var replies := if replyLost then [] else [if acted then Done else Refused(message)];
            Calls(s, call, Served(s, call, acted, vms, replies), maxVms)
  {
    var c, reply := CommandOf(s, call), if acted then Done else Refused(message);
    AskedCalls(s, call, maxVms);
    CallParses(s, call);
    assert [] + [c] == [c] && [c][1..] == [] && [] + [reply] == [reply];
    ThenStep(s, call, Asked(s, call), Serve(acted, vms, message, replyLost),
             Served(s, call, acted, vms, if replyLost then [] else [reply]), maxVms);
  }

  /** The system once the owner has answered. */
  ghost function Settled(s: System, call: Call, ok: bool, vms: map<nat, VmCtx>): System
  {
    var row := RowOf(s, call);
    Served(s, call, ok, vms, []).(
      phase := Idle, confirmed := SuccessesAfter(s, CommandOf(s, call), ok),
      table := if ok && row.Some? then s.table[row.value.handle := row.value] else s.table)
  }

  lemma AnsweredCalls(s: System, call: Call, ok: bool, vms: map<nat, VmCtx>, message: string, maxVms: nat)
    requires AtRest(s) && !s.poisoned && !s.closed && TypedCall(s, call)
    requires Applies(s.vms, maxVms, CommandOf(s, call), ok, vms)
    ensures Calls(s, call, Settled(s, call, ok, vms), maxVms)
  {
    var reply := if ok then Done else Refused(message);
    ServedCalls(s, call, ok, vms, message, false, maxVms);
    ReplyRoundTrip(reply);
    assert [reply][1..] == [];
    ThenStep(s, call, Served(s, call, ok, vms, [reply]), Receive, Settled(s, call, ok, vms), maxVms);
  }

  lemma AnsweredIsAPath(s: System, call: Call, stays: bool, ok: bool, ch: Channel, maxVms: nat)
    requires AtRest(s) && !s.poisoned && !s.closed && TypedCall(s, call)
    requires Applies(s.vms, maxVms, CommandOf(s, call), ok, ch.vms)
    requires ch.next == Reserve(s, call).next && !ch.poisoned && ch.gone == !stays
    ensures exists s' :: Calls(s, call, s', maxVms) && After(s, CommandOf(s, call), ok, ok, ch, s')
  {
    var t := Settled(s, call, ok, ch.vms);
    AnsweredCalls(s, call, ok, ch.vms, "", maxVms);
    if stays {
      assert After(s, CommandOf(s, call), ok, ok, ch, t);
    } else {
      ThenStep(s, call, t, Close, t.(closed := true), maxVms);
      assert After(s, CommandOf(s, call), ok, ok, ch, t.(closed := true));
    }
  }

  /** The stream ends without an error, before or after the owner acted. */
  ghost function Ended(s: System, call: Call, acted: bool, vms: map<nat, VmCtx>): System
  {
    (if acted then Served(s, call, true, vms, []) else Asked(s, call)).(phase := Idle, closed := true)
  }

  lemma EndedCalls(s: System, call: Call, acted: bool, vms: map<nat, VmCtx>, maxVms: nat)
    requires AtRest(s) && !s.poisoned && TypedCall(s, call) && (acted ==> !s.closed)
    requires Applies(s.vms, maxVms, CommandOf(s, call), acted, vms)
    ensures Calls(s, call, Ended(s, call, acted, vms), maxVms)
  {
    var t := if acted then Served(s, call, true, vms, []) else Asked(s, call);
    if acted {
      ServedCalls(s, call, true, vms, "", true, maxVms);
    } else {
      AskedCalls(s, call, maxVms);
    }
    ThenStep(s, call, t, Close, t.(closed := true), maxVms);
    ThenStep(s, call, t.(closed := true), ReceiveEnd, Ended(s, call, acted, vms), maxVms);
  }

  lemma EndedIsAPath(s: System, call: Call, acted: bool, ch: Channel, maxVms: nat)
    requires AtRest(s) && !s.poisoned && TypedCall(s, call) && (acted ==> !s.closed)
    requires Applies(s.vms, maxVms, CommandOf(s, call), acted, ch.vms)
    requires ch.next == Reserve(s, call).next && !ch.poisoned && ch.gone
    ensures exists s' :: Calls(s, call, s', maxVms) && After(s, CommandOf(s, call), false, acted, ch, s')
  {
    EndedCalls(s, call, acted, ch.vms, maxVms);
    assert After(s, CommandOf(s, call), false, acted, ch, Ended(s, call, acted, ch.vms));
  }

  /** An I/O error, with or without the owner acting on the command. */
  ghost function Broken(s: System, call: Call, acted: bool, vms: map<nat, VmCtx>): System
  {
    var c := CommandOf(s, call);
    Reserve(s, call).(poisoned := true, ioError := true, sent := s.sent + [c], vms := vms,
                      applied := if acted then s.applied + [c] else s.applied,
                      replies := if acted then [Done] else [])
  }

  lemma BrokenCalls(s: System, call: Call, acted: bool, vms: map<nat, VmCtx>, maxVms: nat)
    requires AtRest(s) && !s.poisoned && TypedCall(s, call) && (acted ==> !s.closed)
    requires Applies(s.vms, maxVms, CommandOf(s, call), acted, vms)
    ensures Calls(s, call, Broken(s, call, acted, vms), maxVms)
  {
    if acted {
      BrokenAfterActing(s, call, vms, maxVms);
    } else {
      BeginCalls(s, call, Failed(false), Broken(s, call, acted, vms), maxVms);
    }
  }

  lemma BrokenAfterActing(s: System, call: Call, vms: map<nat, VmCtx>, maxVms: nat)
    requires AtRest(s) && !s.poisoned && !s.closed && TypedCall(s, call)
    requires Applies(s.vms, maxVms, CommandOf(s, call), true, vms)
    ensures Calls(s, call, Broken(s, call, true, vms), maxVms)
  {
    var c := CommandOf(s, call);
    var failed := Reserve(s, call).(poisoned := true, ioError := true, sent := s.sent + [c], requests := [c]);
    CallParses(s, call);
    assert [] + [c] == [c] && [c][1..] == [] && [] + [Done] == [Done];
    BeginCalls(s, call, Failed(true), failed, maxVms);
    assert Serves(failed, true, vms, "", false, maxVms, Broken(s, call, true, vms));
    ThenStep(s, call, failed, Serve(true, vms, "", false), Broken(s, call, true, vms), maxVms);
  }

  lemma BrokenIsAPath(s: System, call: Call, acted: bool, ch: Channel, maxVms: nat)
    requires AtRest(s) && !s.poisoned && TypedCall(s, call) && (acted ==> !s.closed)
    requires Applies(s.vms, maxVms, CommandOf(s, call), acted, ch.vms)
    requires ch.next == Reserve(s, call).next && ch.poisoned
    ensures exists s' :: Calls(s, call, s', maxVms) && After(s, CommandOf(s, call), false, acted, ch, s')
  {
    BrokenCalls(s, call, acted, ch.vms, maxVms);
    assert After(s, CommandOf(s, call), false, acted, ch, Broken(s, call, acted, ch.vms));
  }

  /** Whatever fate a command meets is a path of the system. */
  lemma ExchangeIsAPath(s: System, call: Call, ch: Channel, fate: Fate, ok: bool, acted: bool, ch': Channel,
                        maxVms: nat)
    requires AtRest(s) && TypedCall(s, call) && Coupled(s, ch)
    requires Exchange(ch, CommandOf(s, call), fate, ok, acted, ch', maxVms)
    ensures exists s' :: Calls(s, call, s', maxVms) && After(s, CommandOf(s, call), ok, acted, ch', s')
  {
    if s.poisoned {
      BeginCalls(s, call, Written, Reserve(s, call), maxVms);
      assert After(s, CommandOf(s, call), ok, acted, ch', Reserve(s, call));
    } else if fate.IoError? {
      BrokenIsAPath(s, call, acted, ch', maxVms);
    } else if s.closed || fate.EndOfStream? {
      EndedIsAPath(s, call, acted, ch', maxVms);
    } else {
      AnsweredIsAPath(s, call, fate.stays, ok, ch', maxVms);
    }
  }

  // ---- every path is a fate ------------------------------------------------------------------------

  ghost predicate HasActed(s: System, t: System)
  {
    |t.applied| > |s.applied|
  }

  /** In the middle of a command begun from rest at `s`: the line is queued or not, and the owner
      has carried it out at most once. */
  ghost predicate OwnerSide(s: System, c: Command, t: System, maxVms: nat)
  {
    && (s.closed ==> t.closed)
    && (t.requests == s.requests || (!s.poisoned && t.requests == s.requests + [c]))
    && t.applied == s.applied + (if HasActed(s, t) then [c] else [])
    && Applies(s.vms, maxVms, c, HasActed(s, t), t.vms)
    && (HasActed(s, t) ==> !s.closed && !s.poisoned && t.requests == [])
  }

  /** And what the client knows: it waits, or has its answer, or the stream has ended on it, or
      it is poisoned. */
  ghost predicate ClientSide(s: System, c: Command, t: System)
  {
    && (s.poisoned ==> t.poisoned)
    && match t.phase
       case Waiting(command, _, sentAt) =>
         && !t.poisoned && command == c && sentAt == |s.applied| && t.confirmed == s.confirmed
         && (t.replies == [] || (|t.replies| == 1 && t.replies[0].Done? == HasActed(s, t) && t.requests == []))
       case Idle =>
         t.poisoned || (t.replies == [] && (t.closed || t.requests == []))
  }

  /** Only an answer confirms, and only what was done. */
  ghost predicate ToldSo(s: System, c: Command, t: System)
  {
    || t.confirmed == s.confirmed
    || (t.phase.Idle? && !t.poisoned && HasActed(s, t) && t.confirmed == s.confirmed + [(c, |s.applied|)])
  }

  /** A command that was carried out, but not confirmed, met an error or the end of the stream. */
  ghost predicate LostIsBroken(s: System, t: System)
  {
    t.phase.Idle? && !t.poisoned && !t.closed && HasActed(s, t) ==> t.confirmed != s.confirmed
  }

  ghost predicate Midway(s: System, call: Call, t: System, maxVms: nat)
  {
    var c := CommandOf(s, call);
    && t.next == Reserve(s, call).next
    && OwnerSide(s, c, t, maxVms) && ClientSide(s, c, t) && ToldSo(s, c, t) && LostIsBroken(s, t)
  }

  lemma BeginIsMidway(s: System, call: Call, t: System, write: Write, t': System, maxVms: nat)
    requires AtRest(s) && (t == s || t == s.(closed := true)) && Begins(t, call, write, t')
    ensures Midway(s, call, t', maxVms)
  {
  }

  lemma ServeStaysMidway(s: System, call: Call, t: System, ok: bool, vms: map<nat, VmCtx>, message: string,
                         replyLost: bool, t': System, maxVms: nat)
    requires AtRest(s) && TypedCall(s, call) && Midway(s, call, t, maxVms)
    requires Serves(t, ok, vms, message, replyLost, maxVms, t')
    ensures Midway(s, call, t', maxVms)
  {
    CallParses(s, call);
    assert s.requests == [] && t.requests == [CommandOf(s, call)];
  }

  lemma ReceiveStaysMidway(s: System, call: Call, t: System, t': System, maxVms: nat)
    requires AtRest(s) && Midway(s, call, t, maxVms) && Receives(t, t')
    ensures Midway(s, call, t', maxVms)
  {
    ReplyRoundTrip(t.replies[0]);
  }

  lemma StepStaysMidway(s: System, call: Call, t: System, e: Event, t': System, maxVms: nat)
    requires AtRest(s) && TypedCall(s, call) && Midway(s, call, t, maxVms)
    requires Step(t, e, maxVms, t') && !e.Begin?
    ensures Midway(s, call, t', maxVms)
  {
    match e {
      case Serve(ok, vms, message, replyLost) =>
        ServeStaysMidway(s, call, t, ok, vms, message, replyLost, t', maxVms);
      case Receive => ReceiveStaysMidway(s, call, t, t', maxVms);
      case _ =>
    }
  }

  /** Before its one call a path from rest goes nowhere, though the owner may leave. */
  lemma {:induction false} StillAtRest(states: seq<System>, events: seq<Event>, call: Call, b: nat, i: nat, maxVms: nat)
    requires Path(states, events, maxVms) && AtRest(states[0]) && OneCall(events, call, b) && i <= b
    ensures states[i] == states[0] || states[i] == states[0].(closed := true)
  {
    if i > 0 {
      StillAtRest(states, events, call, b, i - 1, maxVms);
      assert Step(states[i - 1], events[i - 1], maxVms, states[i]);
    }
  }

  lemma {:induction false} MidwayAlong(states: seq<System>, events: seq<Event>, call: Call, b: nat, i: nat, maxVms: nat)
    requires Path(states, events, maxVms) && AtRest(states[0]) && TypedCall(states[0], call)
    requires OneCall(events, call, b) && b < i <= |events|
    ensures Midway(states[0], call, states[i], maxVms)
  {
    assert Step(states[i - 1], events[i - 1], maxVms, states[i]);
    if i == b + 1 {
      StillAtRest(states, events, call, b, b, maxVms);
      BeginIsMidway(states[0], call, states[b], events[b].write, states[i], maxVms);
    } else {
      MidwayAlong(states, events, call, b, i - 1, maxVms);
      StepStaysMidway(states[0], call, states[i - 1], events[i - 1], states[i], maxVms);
    }
  }

  /** The fate that explains how a command came to rest. */
  ghost function FateOf(s: System, t: System): Fate
  {
    if t.poisoned then IoError(HasActed(s, t))
    else if t.closed && (s.closed || !HasActed(s, t) || t.confirmed == s.confirmed) then EndOfStream(HasActed(s, t))
    else Answered(HasActed(s, t), !t.closed)
  }

  /** Whatever path the system takes with one command, from rest to rest, is one of its fates. */
  lemma PathIsAnExchange(s: System, call: Call, s': System, ch: Channel, maxVms: nat)
    requires AtRest(s) && AtRest(s') && TypedCall(s, call) && Coupled(s, ch) && Calls(s, call, s', maxVms)
    ensures exists fate, ok, acted, ch' ::
              && Exchange(ch, CommandOf(s, call), fate, ok, acted, ch', maxVms)
              && After(s, CommandOf(s, call), ok, acted, ch', s')
  {
    var states, events, b :|
      Path(states, events, maxVms) && states[0] == s && states[|events|] == s' && OneCall(events, call, b);
    MidwayAlong(states, events, call, b, |events|, maxVms);
    var c, fate, acted := CommandOf(s, call), FateOf(s, s'), HasActed(s, s');
    var ok := acted && fate.Answered?;
    var ch' := Channel(s'.vms, s'.next, s'.poisoned, ch.gone || (!ch.poisoned && Leaves(fate)));
    assert Exchange(ch, c, fate, ok, acted, ch', maxVms);
    assert After(s, c, ok, acted, ch', s');
  }

  // ---- a whole run is a path -----------------------------------------------------------------------

  /** The call that sends a command. */
  function CallFor(c: Command): Call
  {
    match c
    case Add(ifindex, _, netns) => Register("", "", "", ifindex, netns)
    case State(handle, state) => SetState(handle, state)
    case Remove(handle) => Deregister(handle)
  }

  /** A command of the wire's widths, with a state the wire has a name for. */
  predicate Sendable(c: Command)
  {
    Typed(c) && (c.State? ==> c.state <= RESUMING)
  }

  function Names(confirmed: seq<(Command, nat)>): (names: seq<Command>)
    ensures |names| == |confirmed| && forall i :: 0 <= i < |names| ==> names[i] == confirmed[i].0
  {
    seq(|confirmed|, i requires 0 <= i < |confirmed| => confirmed[i].0)
  }

  /** The commands of a trace that were reported successful. */
  function Succeeded(trace: seq<L.Effect>): seq<Command>
  {
    if trace == [] then []
    else
      var e := trace[|trace| - 1];
      Succeeded(trace[..|trace| - 1]) + if e.Control? && e.ok then [e.c] else []
  }

  /** The commands of a trace that the owner carried out. */
  function CarriedOut(trace: seq<L.Effect>): seq<Command>
  {
    if trace == [] then []
    else
      var e := trace[|trace| - 1];
      CarriedOut(trace[..|trace| - 1]) + if e.Control? && e.acted then [e.c] else []
  }

  /** The system at rest after a trace that began at `s`. */
  ghost predicate Traced(s: System, trace: seq<L.Effect>, ch: Channel, s': System, maxVms: nat)
  {
    && Leads(s, s', maxVms) && AtRest(s') && Coupled(s', ch)
    && Names(s'.confirmed) == Names(s.confirmed) + Succeeded(trace)
    && s'.applied == s.applied + CarriedOut(trace)
  }

  lemma TraceOneMore(trace: seq<L.Effect>, e: L.Effect)
    ensures Succeeded(trace + [e]) == Succeeded(trace) + if e.Control? && e.ok then [e.c] else []
    ensures CarriedOut(trace + [e]) == CarriedOut(trace) + if e.Control? && e.acted then [e.c] else []
  {
    assert (trace + [e])[..|trace|] == trace;
  }

  lemma NamesAfter(t: System, c: Command, ok: bool)
    ensures Names(SuccessesAfter(t, c, ok)) == Names(t.confirmed) + if ok then [c] else []
  {
  }

  lemma TracedOneMore(s: System, trace: seq<L.Effect>, ch: Channel, t: System, e: L.Effect, ch': Channel, s': System,
                      maxVms: nat)
    requires Traced(s, trace, ch, t, maxVms) && e.Control?
    requires Leads(t, s', maxVms) && After(t, e.c, e.ok, e.acted, ch', s')
    ensures Traced(s, trace + [e], ch', s', maxVms)
  {
    TraceOneMore(trace, e);
    NamesAfter(t, e.c, e.ok);
    LeadsOn(s, t, s', maxVms);
  }

  lemma EffectIsAPath(s: System, trace: seq<L.Effect>, ch: Channel, t: System, e: L.Effect, ch': Channel, maxVms: nat)
    requires Traced(s, trace, ch, t, maxVms) && L.Moves(ch, e, ch', maxVms) && (e.Control? ==> Sendable(e.c))
    ensures exists s' :: Traced(s, trace + [e], ch', s', maxVms)
  {
    if e.Control? {
      var call := CallFor(e.c);
      ExchangeIsAPath(t, call, ch, e.fate, e.ok, e.acted, ch', maxVms);
      var s' :| Calls(t, call, s', maxVms) && After(t, e.c, e.ok, e.acted, ch', s');
      CallsLead(t, call, s', maxVms);
      TracedOneMore(s, trace, ch, t, e, ch', s', maxVms);
    } else {
      TraceOneMore(trace, e);
      assert Traced(s, trace + [e], ch', t, maxVms);
    }
  }

  /** The history of a run is one path of the system, which confirms exactly the commands that
      the run saw succeed. */
  lemma {:induction false} HistoryIsAPath(trace: seq<L.Effect>, channels: seq<Channel>, s: System, maxVms: nat)
    requires L.History(trace, channels, maxVms) && AtRest(s) && Coupled(s, channels[0])
    requires forall i :: 0 <= i < |trace| && trace[i].Control? ==> Sendable(trace[i].c)
    ensures exists s' :: Traced(s, trace, channels[|trace|], s', maxVms)
  {
    if trace == [] {
      var states, events: seq<Event> := [s], [];
      assert Path(states, events, maxVms);
      assert Traced(s, trace, channels[0], s, maxVms);
    } else {
      var n := |trace| - 1;
      HistoryIsAPath(trace[..n], channels[..n + 1], s, maxVms);
      var t :| Traced(s, trace[..n], channels[n], t, maxVms);
      EffectIsAPath(s, trace[..n], channels[n], t, trace[n], channels[n + 1], maxVms);
      assert trace[..n] + [trace[n]] == trace;
    }
  }

  /** The indices and namespaces of the taps, and the handles they will get, fit the wire. */
  predicate Wireable(taps: seq<L.Tap>, base: nat)
  {
    base + |taps| <= U64 && forall i :: 0 <= i < |taps| ==> taps[i].ifindex < U32 && taps[i].netns < U32
  }

  lemma OrderlySendable(trace: seq<L.Effect>, taps: seq<L.Tap>, base: nat, i: nat)
    requires L.Orderly(trace, taps, base) && Wireable(taps, base) && i < |trace| && trace[i].Control?
    ensures Sendable(trace[i].c)
  {
    L.FollowsAt(trace, taps, base, i);
    OrderlyBefore(trace, taps, base, i);
    L.CountsInStep(trace[..i], taps, base);
  }

  lemma {:induction false} OrderlyBefore(trace: seq<L.Effect>, taps: seq<L.Tap>, base: nat, i: nat)
    requires L.Orderly(trace, taps, base) && i <= |trace|
    ensures L.Orderly(trace[..i], taps, base)
  {
    if i == |trace| {
      assert trace[..i] == trace;
    } else {
      OrderlyBefore(trace[..|trace| - 1], taps, base, i);
      assert trace[..|trace| - 1][..i] == trace[..i];
    }
  }

  /** A whole run, registrations and removals included, is one path of the system. */
  method RunIsAPath(run: L.Run, ghost s: System) returns (outcome: L.Outcome, ghost s': System)
    requires run.Started() && AtRest(s) && Coupled(s, run.Now()) && Wireable(run.world.taps, run.base)
    modifies run
    ensures Traced(s, run.trace, run.Now(), s', run.maxVms)
    ensures outcome.NotSteady? || outcome.SpansError? || L.CleanedUp(run.trace)
  {
    outcome := run.ExecuteRun();
    forall i | 0 <= i < |run.trace| && run.trace[i].Control? ensures Sendable(run.trace[i].c) {
      OrderlySendable(run.trace, run.world.taps, run.base, i);
    }
    HistoryIsAPath(run.trace, run.channels, s, run.maxVms);
    s' :| Traced(s, run.trace, run.Now(), s', run.maxVms);
  }

  // ---- witnesses -----------------------------------------------------------------------------------

  /** The safety of reachable states is not empty: from the start a registration can be sent,
      applied and confirmed. */
  lemma RegistrationCanSucceed(vmId: string, ifindex: nat, netns: nat, maxVms: nat)
    requires ifindex < U32 && netns < U32 && maxVms > 0
    ensures exists states: seq<System>, events: seq<Event> ::
              IsRun(states, events, maxVms) && states[|events|].confirmed == [(Add(ifindex, 0, netns), 0)]
  {
    var call, vms := Register(vmId, "", "", ifindex, netns), map[ifindex := VmCtx(0, netns, RUNNING)];
    AnsweredCalls(START, call, true, vms, "", maxVms);
    var states: seq<System>, events: seq<Event>, b :|
      Path(states, events, maxVms) && states[0] == START && states[|events|] == Settled(START, call, true, vms)
      && OneCall(events, call, b);
    assert IsRun(states, events, maxVms);
  }

  /** Nor is a lost registration ruled out: the owner can hold an entry that the client, neither
      poisoned nor told of any error, knows nothing of. */
  lemma RegistrationCanBeLost(vmId: string, ifindex: nat, netns: nat, maxVms: nat)
    requires ifindex < U32 && netns < U32 && maxVms > 0
    ensures exists states: seq<System>, events: seq<Event> ::
              && IsRun(states, events, maxVms)
              && var s := states[|events|];
                 && AtRest(s) && !s.poisoned && !s.ioError && s.confirmed == [] && s.table == map[]
                 && s.vms == map[ifindex := VmCtx(0, netns, RUNNING)]
  {
    var call, vms := Register(vmId, "", "", ifindex, netns), map[ifindex := VmCtx(0, netns, RUNNING)];
    EndedCalls(START, call, true, vms, maxVms);
    var states: seq<System>, events: seq<Event>, b :|
      Path(states, events, maxVms) && states[0] == START && states[|events|] == Ended(START, call, true, vms)
      && OneCall(events, call, b);
    assert IsRun(states, events, maxVms);
  }

  // ---- session, client, table and owner ------------------------------------------------------------

  /** Client, table and owner hold what the system says they hold. */
  ghost predicate Linked(session: AttributionSession, owner: MapOwner, s: System)
    reads session, session.client, session.table, owner
  {
    && AtRest(s) && s.vms == owner.vms && s.poisoned == session.client.poisoned
    && s.next == session.table.next && s.table == session.table.byHandle
  }

  /** A registration whose line reaches the owner and whose reply comes back: the objects end
      where a path of the system ends, and the row is recorded exactly if the owner did it. */
  method RegisterThrough(session: AttributionSession, owner: MapOwner, vmId: string, tap: string, mac: string,
                         ifindex: nat, netns: nat, fault: bool, message: string, ghost s: System)
      returns (handle: Option<nat>, ghost s': System)
    requires Linked(session, owner, s) && !s.poisoned && !s.closed && session.table.Valid() && owner.Valid()
    requires TypedCall(s, Register(vmId, tap, mac, ifindex, netns))
    modifies session.client, session.table, owner
    ensures Leads(s, s', owner.maxVms) && Linked(session, owner, s') && session.table.Valid() && owner.Valid()
    ensures handle == if s'.confirmed != s.confirmed then Some(s.next) else None
  {
    ghost var call := Register(vmId, tap, mac, ifindex, netns);
    var c := Add(ifindex, session.table.next, netns);
    CallParses(s, call);
    var reply := owner.ServeLine(Line(c), fault, message);
    ReplyRoundTrip(reply);
    handle := session.Register(vmId, tap, mac, ifindex, netns, Replied(ReplyLine(reply)));
    AnsweredCalls(s, call, reply.Done?, owner.vms, message, owner.maxVms);
    s' := Settled(s, call, reply.Done?, owner.vms);
    CallsLead(s, call, s', owner.maxVms);
  }

  /** The stream brings no reply: an I/O error, or its end, which reads as the empty line. */
  predicate NoReply(io: Io)
  {
    !io.Replied? || io.line == ""
  }

  ghost function Unanswered(s: System, call: Call, acted: bool, vms: map<nat, VmCtx>, error: bool): System
  {
    if error then Broken(s, call, acted, vms) else Ended(s, call, acted, vms)
  }

  lemma UnansweredLeads(s: System, call: Call, acted: bool, vms: map<nat, VmCtx>, error: bool, maxVms: nat)
    requires AtRest(s) && !s.poisoned && TypedCall(s, call) && (acted ==> !s.closed)
    requires Applies(s.vms, maxVms, CommandOf(s, call), acted, vms)
    ensures Leads(s, Unanswered(s, call, acted, vms, error), maxVms)
  {
    if error {
      BrokenCalls(s, call, acted, vms, maxVms);
    } else {
      EndedCalls(s, call, acted, vms, maxVms);
    }
    CallsLead(s, call, Unanswered(s, call, acted, vms, error), maxVms);
  }

  /** A registration whose reply never arrives, whether or not its line did: nothing is recorded
      and the handle is spent, and the client is poisoned exactly if there was an I/O error. */
  method RegisterUnanswered(session: AttributionSession, owner: MapOwner, vmId: string, tap: string, mac: string,
                            ifindex: nat, netns: nat, delivered: bool, fault: bool, io: Io, ghost s: System)
      returns (ghost s': System)
    requires Linked(session, owner, s) && !s.poisoned && session.table.Valid() && owner.Valid() && NoReply(io)
    requires TypedCall(s, Register(vmId, tap, mac, ifindex, netns)) && (delivered ==> !s.closed)
    modifies session.client, session.table, owner
    ensures Leads(s, s', owner.maxVms) && Linked(session, owner, s') && session.table.Valid() && owner.Valid()
    ensures s'.poisoned <==> !io.Replied?
    ensures io.Replied? ==> s'.closed
    ensures s'.confirmed == s.confirmed && s'.table == s.table && s'.next == s.next + 1
  {
    ghost var call := Register(vmId, tap, mac, ifindex, netns);
    var c := Add(ifindex, session.table.next, netns);
    ghost var acted := false;
    if delivered {
      CallParses(s, call);
      var reply := owner.ServeLine(Line(c), fault, "");
      acted := reply.Done?;
    }
    var handle := session.Register(vmId, tap, mac, ifindex, netns, io);
    UnansweredLeads(s, call, acted, owner.vms, !io.Replied?, owner.maxVms);
    s' := Unanswered(s, call, acted, owner.vms, !io.Replied?);
  }
}
