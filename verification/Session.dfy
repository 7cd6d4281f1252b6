/** The orchestrator's side: the control client, the handle table and the label rewrite. */
module Session {
  import opened Attribution
  import opened Decimal
  import opened Options
  import opened Powers
  import opened RunIds
  import opened Wire

  /** What the stream does with one command line; a closed stream reads as the empty reply. */
  datatype Io = WriteFails | FlushFails | ReadFails | Replied(line: string)

  class ControlClient {
    var poisoned: bool

    constructor ()
      ensures !poisoned
    {
      poisoned := false;
    }

    /** Send a line and wait for its reply. Any I/O error poisons the channel, and a
        poisoned channel refuses without touching the stream. */
    method Command(line: string, io: Io) returns (ok: bool)
      modifies this
      ensures poisoned <==> old(poisoned) || !io.Replied?
      ensures ok <==> !old(poisoned) && io.Replied? && Accepts(io.line)
    {
      if poisoned {
        return false;
      }
      if io.WriteFails? || io.FlushFails? || io.ReadFails? {
        poisoned := true;
        return false;
      }
      var reply := TrimEnd(TrimStart(io.line));
      if "err" <= reply {
        return false;
      }
      return reply == "ok";
    }
  }

  /** Dense handles and the provenance recorded for them. */
  class HandleTable {
    var byHandle: map<nat, Provenance>
    var next: nat

    ghost predicate Valid()
      reads this
    {
      forall h :: h in byHandle ==> h < next && byHandle[h].handle == h
    }

    constructor ()
      ensures Valid() && byHandle == map[] && next == 0
    {
      byHandle, next := map[], 0;
    }

    method Reserve() returns (handle: nat)
      requires Valid()
      modifies this`next
      ensures Valid() && handle == old(next) && next == handle + 1
      ensures handle !in byHandle
    {
      handle := next;
      next := next + 1;
    }

    method Insert(row: Provenance)
      requires Valid() && row.handle < next
      modifies this`byHandle
      ensures Valid() && byHandle == old(byHandle)[row.handle := row]
    {
      byHandle := byHandle[row.handle := row];
    }

    /** The rows in ascending order of handle, each once. */
    method ProvenanceRows() returns (rows: seq<Provenance>)
      requires Valid()
      ensures forall i, j :: 0 <= i < j < |rows| ==> rows[i].handle < rows[j].handle
      ensures forall row :: row in rows <==> row.handle in byHandle && byHandle[row.handle] == row
    {
      rows := [];
      for h := 0 to next
        invariant forall i :: 0 <= i < |rows| ==> rows[i].handle < h
        invariant forall i, j :: 0 <= i < j < |rows| ==> rows[i].handle < rows[j].handle
        invariant forall row :: row in rows <==> row.handle < h && row.handle in byHandle && byHandle[row.handle] == row
      {
        if h in byHandle {
          rows := rows + [byHandle[h]];
        }
      }
    }
  }

  class AttributionSession {
    const client: ControlClient
    const table: HandleTable

    constructor (client: ControlClient, table: HandleTable)
      ensures this.client == client && this.table == table
    {
      this.client := client;
      this.table := table;
    }

    /** Reserve a handle, tell the owner, and record provenance only if it accepted. The
        handle is used up either way. */
    method Register(vmId: string, tap: string, mac: string, ifindex: nat, netns: nat, io: Io)
        returns (handle: Option<nat>)
      requires table.Valid()
      modifies client, table
      ensures table.Valid() && table.next == old(table.next) + 1
      ensures handle == if !old(client.poisoned) && io.Replied? && Accepts(io.line) then Some(old(table.next)) else None
      ensures table.byHandle ==
        if handle.None? then old(table.byHandle)
        else old(table.byHandle)[handle.value := Provenance(handle.value, vmId, tap, mac, ifindex, netns)]
      ensures client.poisoned <==> old(client.poisoned) || !io.Replied?
    {
      var h := table.Reserve();
      var ok := client.Command(Line(Add(ifindex, h, netns)), io);
      if !ok {
        return None;
      }
      table.Insert(Provenance(h, vmId, tap, mac, ifindex, netns));
      return Some(h);
    }
  }

  // ---- label rewrite ------------------------------------------------------------------------

  /** A series: its `labels.vm_id`, if it has a textual one, and everything else. */
  datatype Series<T> = Series(vmId: Option<string>, other: T)

  function RewriteLabel(text: string, table: map<nat, Provenance>): string
  {
    var handle := Parse(text, U64);
    if handle.Some? && handle.value in table then table[handle.value].vmId else text
  }

  /** A handle that the table does not know. */
  predicate Unresolved(text: string, table: map<nat, Provenance>)
  {
    var handle := Parse(text, U64);
    handle.Some? && handle.value !in table
  }

  function RewriteSeries<T>(s: Series<T>, table: map<nat, Provenance>): Series<T>
  {
    if s.vmId.None? then s else s.(vmId := Some(RewriteLabel(s.vmId.value, table)))
  }

  /** The unresolved labels so far, each once, in the order first seen. */
  function NoteUnknown<T>(unknown: seq<string>, s: Series<T>, table: map<nat, Provenance>): seq<string>
  {
    if s.vmId.Some? && Unresolved(s.vmId.value, table) && s.vmId.value !in unknown then unknown + [s.vmId.value]
    else unknown
  }

  function UnknownLabels<T>(series: seq<Series<T>>, table: map<nat, Provenance>): seq<string>
  {
    if series == [] then []
    else NoteUnknown(UnknownLabels(series[..|series| - 1], table), series[|series| - 1], table)
  }

  /** Rewrite every series in place and report the handles nothing is known about. */
  method RewriteVmIdLabels<T>(series: array<Series<T>>, table: map<nat, Provenance>) returns (unknown: seq<string>)
    modifies series
    ensures forall i :: 0 <= i < series.Length ==> series[i] == RewriteSeries(old(series[i]), table)
    ensures unknown == UnknownLabels(old(series[..]), table)
  {
    unknown := [];
    ghost var before := series[..];
    for i := 0 to series.Length
      invariant forall k :: 0 <= k < i ==> series[k] == RewriteSeries(before[k], table)
      invariant forall k :: i <= k < series.Length ==> series[k] == before[k]
      invariant unknown == UnknownLabels(before[..i], table)
    {
      assert before[..i + 1][..i] == before[..i];
      series[i], unknown := RewriteOne(series[i], table, unknown);
    }
    assert before[..series.Length] == before;
  }

  /** One turn of the rewriting loop. */
  method RewriteOne<T>(s: Series<T>, table: map<nat, Provenance>, before: seq<string>)
      returns (s': Series<T>, unknown: seq<string>)
    ensures s' == RewriteSeries(s, table) && unknown == NoteUnknown(before, s, table)
  {
    s', unknown := s, before;
    if s.vmId.Some? {
      var raw := s.vmId.value;
      var handle := Parse(raw, U64);
      if handle.Some? {
        if handle.value in table {
          s' := s.(vmId := Some(table[handle.value].vmId));
        } else if raw !in unknown {
          unknown := unknown + [raw];
        }
      }
    }
  }

  /** A label carrying a known handle becomes that handle's own id. */
  lemma HandleResolves(handle: nat, table: map<nat, Provenance>)
    requires handle in table && handle < U64
    ensures RewriteLabel(Render(handle), table) == table[handle].vmId
  {
    RenderParses(handle, U64);
  }

  /** Every id in the table is left alone by a further rewrite. */
  ghost predicate Settled(table: map<nat, Provenance>)
  {
    forall h :: h in table && h < U64 ==> RewriteLabel(table[h].vmId, table) == table[h].vmId
  }

  /** A second rewrite of any label equals the first exactly when every id is settled. */
  lemma RewriteTwiceExactly(table: map<nat, Provenance>)
    ensures (forall text :: RewriteLabel(RewriteLabel(text, table), table) == RewriteLabel(text, table))
              <==> Settled(table)
  {
    if forall text :: RewriteLabel(RewriteLabel(text, table), table) == RewriteLabel(text, table) {
      forall h | h in table && h < U64 ensures RewriteLabel(table[h].vmId, table) == table[h].vmId {
        HandleResolves(h, table);
        assert RewriteLabel(RewriteLabel(Render(h), table), table) == RewriteLabel(Render(h), table);
      }
    }
  }

  function Rewritten<T>(series: seq<Series<T>>, table: map<nat, Provenance>): (once: seq<Series<T>>)
    ensures |once| == |series| && forall i :: 0 <= i < |once| ==> once[i] == RewriteSeries(series[i], table)
  {
    seq(|series|, i requires 0 <= i < |series| => RewriteSeries(series[i], table))
  }

  /** A second rewrite reports the unknown handles of the first. */
  ghost predicate ReportsTheSame<T>(series: seq<Series<T>>, table: map<nat, Provenance>)
  {
    UnknownLabels(Rewritten(series, table), table) == UnknownLabels(series, table)
  }

  /** No id in the table reads as a handle that the table does not know. */
  ghost predicate NoIdUnresolved(table: map<nat, Provenance>)
  {
    forall h :: h in table && h < U64 ==> !Unresolved(table[h].vmId, table)
  }

  /** A second rewrite reports the unknown handles of the first, for every list of series,
      exactly when no id is itself an unknown handle. */
  lemma SameReportExactly<T(!new)>(table: map<nat, Provenance>, other: T)
    ensures (forall series: seq<Series<T>> :: ReportsTheSame(series, table)) <==> NoIdUnresolved(table)
  {
    if NoIdUnresolved(table) {
      forall series: seq<Series<T>> ensures ReportsTheSame(series, table) {
        SameReport(series, table);
      }
    } else {
      var h :| h in table && h < U64 && Unresolved(table[h].vmId, table);
      var series := [Series(Some(Render(h)), other)];
      HandleResolves(h, table);
      RenderParses(h, U64);
      assert series[..0] == [] && Rewritten(series, table)[..0] == [];
      assert UnknownLabels(series, table) == [];
      assert UnknownLabels(Rewritten(series, table), table) == [table[h].vmId];
      assert !ReportsTheSame(series, table);
    }
  }

  lemma {:induction false} SameReport<T>(series: seq<Series<T>>, table: map<nat, Provenance>)
    requires NoIdUnresolved(table)
    ensures UnknownLabels(Rewritten(series, table), table) == UnknownLabels(series, table)
  {
    if series != [] {
      var n := |series| - 1;
      SameReport(series[..n], table);
      assert Rewritten(series, table)[..n] == Rewritten(series[..n], table);
    }
  }

  /** When every id is one that a run registers, a second rewrite changes no label and reports
      the same unknown handles. */
  lemma IssuedIdsRewriteOnce<T(!new)>(series: seq<Series<T>>, table: map<nat, Provenance>)
    requires forall h :: h in table ==> Issued(table[h].vmId)
    ensures Rewritten(Rewritten(series, table), table) == Rewritten(series, table)
    ensures UnknownLabels(Rewritten(series, table), table) == UnknownLabels(series, table)
  {
    forall h | h in table ensures Parse(table[h].vmId, U64).None? {
      IssuedIsNoHandle(table[h].vmId);
    }
    RewriteTwiceExactly(table);
    SameReport(series, table);
    var once := Rewritten(series, table);
    forall i | 0 <= i < |once| ensures RewriteSeries(once[i], table) == once[i] {
      if series[i].vmId.Some? {
        assert RewriteLabel(RewriteLabel(series[i].vmId.value, table), table)
                  == RewriteLabel(series[i].vmId.value, table);
      }
    }
  }

  /** Two handles whose ids spell each other. */
  function Swapped(h: nat, k: nat): map<nat, Provenance>
  {
    map[h := Provenance(h, Render(k), "", "", 0, 0), k := Provenance(k, Render(h), "", "", 0, 0)]
  }

  /** Two ids that spell each other's handle are swapped by every rewrite, for ever, and none of
      the rewrites reports anything. */
  lemma SwappedIdsNeverSettle(h: nat, k: nat)
    requires h < U64 && k < U64 && h != k
    ensures RewriteLabel(Render(h), Swapped(h, k)) == Render(k) != Render(h)
    ensures RewriteLabel(Render(k), Swapped(h, k)) == Render(h)
    ensures !Settled(Swapped(h, k)) && NoIdUnresolved(Swapped(h, k))
  {
    HandleResolves(h, Swapped(h, k));
    HandleResolves(k, Swapped(h, k));
    RenderParses(h, U64);
    RenderParses(k, U64);
    assert h in Swapped(h, k);
  }
}
