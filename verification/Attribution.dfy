/** The attribution channel as a state machine: one client, one owner, whole lines between
    them, and an I/O error possible at every step. */
module Attribution {
  import opened Options
  import opened Powers
  import opened Wire

  // ---- the owner's map ------------------------------------------------------------------

  /** A map value: the handle it attributes traffic to, its namespace and lifecycle state. */
  datatype VmCtx = VmCtx(vmId: nat, netns: nat, state: nat)

  /** What applying a command may do to the map. A failure, whatever its cause, leaves the
      map as it was. */
  ghost predicate Applies(vms: map<nat, VmCtx>, maxVms: nat, c: Command, ok: bool, vms': map<nat, VmCtx>)
  {
    if !ok then vms' == vms
    else match c
      case Add(ifindex, handle, netns) =>
        && (ifindex in vms || |vms| < maxVms)
        && vms' == vms[ifindex := VmCtx(handle, netns, RUNNING)]
      case State(handle, state) =>
        exists k :: k in vms && vms[k].vmId == handle && vms' == vms[k := vms[k].(state := state)]
      case Remove(handle) =>
        exists k :: k in vms && vms[k].vmId == handle && vms' == vms - {k}
  }

  // ---- the system -------------------------------------------------------------------------

  datatype Provenance = Provenance(handle: nat, vmId: string, tap: string, mac: string, ifindex: nat, netns: nat)

  /** Between commands, or waiting for the reply to one; `sentAt` is how many commands the
      owner had applied when it was sent. */
  datatype Phase = Idle | Waiting(command: Command, row: Option<Provenance>, sentAt: nat)

  /** Client, channel and owner, followed by what has happened so far: the commands written,
      those the owner applied, and the ones reported as successful together with how many
      commands the owner had applied when each was sent. */
  datatype System = System(
    next: nat, table: map<nat, Provenance>, poisoned: bool, phase: Phase,
    requests: seq<Command>, replies: seq<Reply>, closed: bool, vms: map<nat, VmCtx>,
    sent: seq<Command>, applied: seq<Command>, confirmed: seq<(Command, nat)>, ioError: bool)

  const START := System(0, map[], false, Idle, [], [], false, map[], [], [], [], false)

  /** What the client may be asked to do. */
  datatype Call =
    | Register(vmId: string, tap: string, mac: string, ifindex: nat, netns: nat)
    | SetState(handle: nat, state: nat)
    | Deregister(handle: nat)

  /** How far writing the line got. */
  datatype Write = Written | Failed(delivered: bool)

  datatype Event =
    | Begin(call: Call, write: Write)
    | Serve(ok: bool, vms: map<nat, VmCtx>, message: string, replyLost: bool)
    | Receive
    | ReceiveFails
    | ReceiveEnd
    | Close

  predicate TypedCall(s: System, call: Call)
  {
    match call
    case Register(_, _, _, ifindex, netns) => s.next < U64 && ifindex < U32 && netns < U32
    case SetState(handle, state) => handle < U64 && state < 256
    case Deregister(handle) => handle < U64
  }

  /** The command a call puts on the wire; a new registration takes the next handle. */
  function CommandOf(s: System, call: Call): Command
  {
    match call
    case Register(_, _, _, ifindex, netns) => Add(ifindex, s.next, netns)
    case SetState(handle, state) => State(handle, if state <= RESUMING then state else RUNNING)
    case Deregister(handle) => Remove(handle)
  }

  function RowOf(s: System, call: Call): Option<Provenance>
  {
    match call
    case Register(vmId, tap, mac, ifindex, netns) => Some(Provenance(s.next, vmId, tap, mac, ifindex, netns))
    case _ => None
  }

  /** Reserving a handle comes first and is never undone. */
  function Reserve(s: System, call: Call): System
  {
    if call.Register? then s.(next := s.next + 1) else s
  }

  /** The client starts a command. A poisoned client refuses without writing; a failed
      write poisons it, and the line may or may not have got through. */
  ghost predicate Begins(s: System, call: Call, write: Write, s': System)
  {
    && s.phase.Idle? && TypedCall(s, call)
    && var c := CommandOf(s, call);
       var r := Reserve(s, call);
       if s.poisoned then s' == r
       else match write
         case Written =>
           s' == r.(phase := Waiting(c, RowOf(s, call), |s.applied|), requests := s.requests + [c],
                    sent := s.sent + [c])
         case Failed(delivered) =>
           s' == r.(poisoned := true, ioError := true, sent := s.sent + [c],
                    requests := if delivered then s.requests + [c] else s.requests)
  }

  /** The owner takes the oldest line, parses it, applies it and answers; it does not
      notice when its answer cannot be written. */
  ghost predicate Serves(s: System, ok: bool, vms: map<nat, VmCtx>, message: string, replyLost: bool, maxVms: nat,
                         s': System)
  {
    && !s.closed && s.requests != []
    && var parsed := ParseCommand(Line(s.requests[0]));
       && (if parsed.Ok? then Applies(s.vms, maxVms, parsed.command, ok, vms) else !ok && vms == s.vms)
       && s' == s.(requests := s.requests[1..], vms := vms,
                   applied := if ok then s.applied + [parsed.command] else s.applied,
                   replies := if replyLost then s.replies else s.replies + [if ok then Done else Refused(message)])
  }

  /** The client reads the oldest reply; only a registration that succeeded is recorded. */
  ghost predicate Receives(s: System, s': System)
  {
    && s.phase.Waiting? && s.replies != []
    && var rest := s.(phase := Idle, replies := s.replies[1..]);
       if !Accepts(ReplyLine(s.replies[0])) then s' == rest
       else s' == rest.(
         table := if s.phase.row.Some? then s.table[s.phase.row.value.handle := s.phase.row.value] else s.table,
         confirmed := s.confirmed + [(s.phase.command, s.phase.sentAt)])
  }

  ghost predicate Step(s: System, e: Event, maxVms: nat, s': System)
  {
    match e
    case Begin(call, write) => Begins(s, call, write, s')
    case Serve(ok, vms, message, replyLost) => Serves(s, ok, vms, message, replyLost, maxVms, s')
    case Receive => Receives(s, s')
    case ReceiveFails => s.phase.Waiting? && s' == s.(phase := Idle, poisoned := true, ioError := true)
    case ReceiveEnd => s.phase.Waiting? && s.closed && s.replies == [] && s' == s.(phase := Idle)
    case Close => s' == s.(closed := true)
  }

  // ---- the invariant -----------------------------------------------------------------------

  /** An unpoisoned idle client has no outstanding reply, and no outstanding request unless
      the owner has gone. */
  ghost predicate Quiet(s: System)
  {
    s.phase.Idle? && !s.poisoned ==> s.replies == [] && (s.closed || s.requests == [])
  }

  /** While a command is outstanding it is either still to be served, or was refused, or is
      the one command applied since it was sent. */
  ghost predicate InFlight(s: System)
  {
    s.phase.Waiting? ==>
      var Waiting(c, row, sentAt) := s.phase;
      && !s.poisoned
      && (row.Some? ==> c == Add(row.value.ifindex, row.value.handle, row.value.netns))
      && (|| (|s.applied| == sentAt && s.replies == [] && (s.closed || s.requests == [c]))
          || (|s.applied| == sentAt && Replied(s.replies, false) && (s.closed || s.requests == []))
          || (|s.applied| == sentAt + 1 && s.applied[sentAt] == c && Replied(s.replies, true)
              && (s.closed || s.requests == [])))
  }

  /** The one reply of the given kind, unless it was lost. */
  ghost predicate Replied(replies: seq<Reply>, done: bool)
  {
    replies == [] || (|replies| == 1 && replies[0].Done? == done)
  }

  /** Commands that the wire carries unchanged. */
  ghost predicate Clean(cs: seq<Command>)
  {
    forall i :: 0 <= i < |cs| ==> Typed(cs[i]) && (cs[i].State? ==> cs[i].state <= RESUMING)
  }

  /** Handles of registrations only ever go up, and the next one is above them all. */
  ghost predicate Ascending(cs: seq<Command>, next: nat)
  {
    && (forall i :: 0 <= i < |cs| && cs[i].Add? ==> cs[i].handle < next)
    && (forall i, j :: 0 <= i < j < |cs| && cs[i].Add? && cs[j].Add? ==> cs[i].handle < cs[j].handle)
  }

  /** Every map entry was put there by the add that carries its handle. */
  ghost predicate Entries(vms: map<nat, VmCtx>, applied: seq<Command>)
  {
    forall k :: k in vms ==> Add(k, vms[k].vmId, vms[k].netns) in applied
  }

  /** Every provenance row is an add the owner applied. */
  ghost predicate Rows(table: map<nat, Provenance>, applied: seq<Command>)
  {
    forall h :: h in table ==> table[h].handle == h && Add(table[h].ifindex, h, table[h].netns) in applied
  }

  /** Each success names a different applied command. */
  ghost predicate Confirmed(s: System)
  {
    && (forall i :: 0 <= i < |s.confirmed| ==>
          s.confirmed[i].1 < |s.applied| && s.applied[s.confirmed[i].1] == s.confirmed[i].0)
    && (forall i, j :: 0 <= i < j < |s.confirmed| ==> s.confirmed[i].1 < s.confirmed[j].1)
    && (s.phase.Waiting? ==> forall i :: 0 <= i < |s.confirmed| ==> s.confirmed[i].1 < s.phase.sentAt)
  }

  ghost predicate Inv(s: System)
  {
    && (s.poisoned <==> s.ioError) && Quiet(s) && InFlight(s) && Clean(s.requests)
    && Ascending(s.sent, s.next) && Ascending(s.applied + s.requests, s.next)
    && Entries(s.vms, s.applied) && Rows(s.table, s.applied) && Confirmed(s)
  }

  lemma AscendingAppend(cs: seq<Command>, next: nat, c: Command, next': nat)
    requires Ascending(cs, next) && next <= next' && (c.Add? ==> next <= c.handle < next')
    ensures Ascending(cs + [c], next')
  {}

  /** Serving moves a line out of the queue, or into the log in the same place. */
  lemma AscendingServe(applied: seq<Command>, requests: seq<Command>, next: nat)
    requires requests != [] && Ascending(applied + requests, next)
    ensures Ascending(applied + requests[1..], next)
    ensures Ascending((applied + [requests[0]]) + requests[1..], next)
  {
    var all, cut := applied + requests, applied + requests[1..];
    assert (applied + [requests[0]]) + requests[1..] == all;
    forall i | 0 <= i < |cut| ensures cut[i] == all[if i < |applied| then i else i + 1] {}
  }

  lemma CleanParses(c: Command)
    requires Clean([c])
    ensures ParseCommand(Line(c)) == Ok(c)
  {
    assert [c][0] == c;
    WireRoundTrip(c);
  }

  lemma BeginKeeps(s: System, call: Call, write: Write, s': System)
    requires Inv(s) && Begins(s, call, write, s')
    ensures Inv(s')
  {
    var c := CommandOf(s, call);
    assert Typed(c) && (c.State? ==> c.state <= RESUMING);
    if !s.poisoned {
      AscendingAppend(s.sent, s.next, c, s'.next);
      AscendingAppend(s.applied + s.requests, s.next, c, s'.next);
      assert s.applied + (s.requests + [c]) == s.applied + s.requests + [c];
    }
  }

  lemma ServeKeeps(s: System, ok: bool, vms: map<nat, VmCtx>, message: string, replyLost: bool, maxVms: nat, s': System)
    requires Inv(s) && Serves(s, ok, vms, message, replyLost, maxVms, s')
    ensures Inv(s')
  {
    var c := s.requests[0];
    CleanParses(c);
    AscendingServe(s.applied, s.requests, s.next);
    if ok {
      EntriesKept(s.vms, maxVms, c, vms, s.applied);
    }
  }

  lemma EntriesKept(vms: map<nat, VmCtx>, maxVms: nat, c: Command, vms': map<nat, VmCtx>, applied: seq<Command>)
    requires Entries(vms, applied) && Applies(vms, maxVms, c, true, vms')
    ensures Entries(vms', applied + [c])
  {
    forall k | k in vms'
      ensures Add(k, vms'[k].vmId, vms'[k].netns) in applied + [c]
    {
      if k in vms && vms'[k].vmId == vms[k].vmId && vms'[k].netns == vms[k].netns {
        assert Add(k, vms[k].vmId, vms[k].netns) in applied;
      } else {
        assert c == Add(k, vms'[k].vmId, vms'[k].netns);
      }
    }
  }

  lemma ReceiveKeeps(s: System, s': System)
    requires Inv(s) && Receives(s, s')
    ensures Inv(s')
  {
    ReplyRoundTrip(s.replies[0]);
  }

  /** Every step keeps the invariant. */
  lemma StepKeeps(s: System, e: Event, maxVms: nat, s': System)
    requires Inv(s) && Step(s, e, maxVms, s')
    ensures Inv(s')
  {
    match e {
      case Begin(call, write) => BeginKeeps(s, call, write, s');
      case Serve(ok, vms, message, replyLost) => ServeKeeps(s, ok, vms, message, replyLost, maxVms, s');
      case Receive => ReceiveKeeps(s, s');
      case _ =>
    }
  }

  // ---- safety over whole runs ------------------------------------------------------------------

  ghost predicate IsRun(states: seq<System>, events: seq<Event>, maxVms: nat)
  {
    && |states| == |events| + 1 && states[0] == START
    && forall i :: 0 <= i < |events| ==> Step(states[i], events[i], maxVms, states[i + 1])
  }

  lemma {:induction false} RunKeepsInvariant(states: seq<System>, events: seq<Event>, maxVms: nat, i: nat)
    requires IsRun(states, events, maxVms) && i < |states|
    ensures Inv(states[i])
  {
    if i > 0 {
      RunKeepsInvariant(states, events, maxVms, i - 1);
      StepKeeps(states[i - 1], events[i - 1], maxVms, states[i]);
    }
  }

  /** In every reachable state: the channel is in step, no two map entries carry the same
      handle, and every provenance row is an add the owner applied. */
  lemma ReachableStatesAreSafe(states: seq<System>, events: seq<Event>, maxVms: nat, i: nat)
    requires IsRun(states, events, maxVms) && i < |states|
    ensures var s := states[i];
            && (s.phase.Idle? && !s.ioError && !s.closed ==> s.requests == [] && s.replies == [])
            && (forall k, l :: k in s.vms && l in s.vms && s.vms[k].vmId == s.vms[l].vmId ==> k == l)
            && (forall h :: h in s.table ==> Add(s.table[h].ifindex, h, s.table[h].netns) in s.applied)
  {
    RunKeepsInvariant(states, events, maxVms, i);
    var s := states[i];
    forall k, l | k in s.vms && l in s.vms && s.vms[k].vmId == s.vms[l].vmId
      ensures k == l
    {
      var m :| 0 <= m < |s.applied| && s.applied[m] == Add(k, s.vms[k].vmId, s.vms[k].netns);
      var n :| 0 <= n < |s.applied| && s.applied[n] == Add(l, s.vms[l].vmId, s.vms[l].netns);
      assert (s.applied + s.requests)[m] == s.applied[m] && (s.applied + s.requests)[n] == s.applied[n];
      assert m == n;
    }
  }

  /** A success names the one command the owner has applied since that command was sent. */
  lemma SuccessMeansApplied(states: seq<System>, events: seq<Event>, maxVms: nat, i: nat)
    requires IsRun(states, events, maxVms) && i < |events|
    requires states[i + 1].confirmed != states[i].confirmed
    ensures var s := states[i];
            && s.phase.Waiting? && !s.ioError && s.phase.sentAt <= |s.applied|
            && states[i + 1].confirmed == s.confirmed + [(s.phase.command, s.phase.sentAt)]
            && s.applied == s.applied[..s.phase.sentAt] + [s.phase.command]
  {
    RunKeepsInvariant(states, events, maxVms, i);
    var s := states[i];
    assert Step(s, events[i], maxVms, states[i + 1]);
    ReplyRoundTrip(s.replies[0]);
    assert s.applied == s.applied[..s.phase.sentAt] + [s.applied[s.phase.sentAt]];
  }

  /** Once an I/O error has happened nothing is ever reported successful again. */
  lemma {:induction false} NoSuccessAfterError(states: seq<System>, events: seq<Event>, maxVms: nat, i: nat, j: nat)
    requires IsRun(states, events, maxVms) && i <= j < |states| && states[i].ioError
    ensures states[j].ioError && states[j].confirmed == states[i].confirmed && states[j].table == states[i].table
  {
    if i < j {
      NoSuccessAfterError(states, events, maxVms, i, j - 1);
      RunKeepsInvariant(states, events, maxVms, j - 1);
      assert Step(states[j - 1], events[j - 1], maxVms, states[j]);
    }
  }

  lemma {:induction false} NextNeverDrops(states: seq<System>, events: seq<Event>, maxVms: nat, i: nat, j: nat)
    requires IsRun(states, events, maxVms) && i <= j < |states|
    ensures states[i].next <= states[j].next
  {
    if i < j {
      NextNeverDrops(states, events, maxVms, i, j - 1);
      assert Step(states[j - 1], events[j - 1], maxVms, states[j]);
    }
  }

  /** Two registrations never get the same handle, whether or not either of them succeeds. */
  lemma HandlesNeverReused(states: seq<System>, events: seq<Event>, maxVms: nat, i: nat, j: nat)
    requires IsRun(states, events, maxVms) && i < j < |events|
    requires events[i].Begin? && events[i].call.Register? && events[j].Begin? && events[j].call.Register?
    ensures CommandOf(states[i], events[i].call).handle < CommandOf(states[j], events[j].call).handle
  {
    assert Step(states[i], events[i], maxVms, states[i + 1]);
    NextNeverDrops(states, events, maxVms, i + 1, j);
  }
}
